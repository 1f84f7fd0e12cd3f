/** The agent's event loop over one captured session, one client and at most one
    exec operation (guest/minimal-initrd/agent.c, guest/minimal-initrd/build_run.c,
    guest/minimal-initrd/session_io.c). What the outside world answers (reads,
    child exits, failed writes, failed setups) is left open. */
module Agents {
  import opened Bytes
  import opened Spio
  import opened Wire
  import opened Replay
  import opened Clients
  import opened Sessions
  import Tree
  import TargetDirectories
  import MountTargets
  import RunMounts
  import opened MountTables

  datatype Op = NoOp | Transient | BuildRun

  /** A parsed request. `OneShot` stands for every kind that is answered at once
      and starts nothing: ready, initial output, copies, workdir, grow, freeze,
      thaw, and a detached start. */
  datatype Request =
    | OneShot
    | Start(sessionId: string, outOffset: nat, errOffset: nat, stdin: bool, tty: bool, pressure: bool)
    | Attach(sessionId: string, outOffset: nat, errOffset: nat, stdin: bool, tty: bool, interactive: bool)
    | Build(sessionId: string, caches: seq<MountTargets.Target>, binds: seq<MountTargets.Target>)

  /** Who owns standard input, and a terminal's input. */
  ghost predicate Owns(request: Request) {
    match request
    case Start(_, _, _, stdin, _, _) => stdin
    case Attach(_, _, _, stdin, _, _) => stdin
    case _ => false
  }

  ghost predicate OwnsTerminal(request: Request) {
    match request
    case Start(_, _, _, _, tty, _) => tty
    case Attach(_, _, _, _, tty, interactive) => tty && interactive
    case _ => false
  }

  /** What comes of a connection: nothing, no request, or one with what the
      world has for it: whether what it needs is `ready`, whether the command it
      streams arrives whole, and whether its command `starts`. */
  datatype Arrival = Nobody | Unread | Malformed | Asks(request: Request, ready: bool, streamed: bool, starts: bool)

  /** The request is one the parser lets through. */
  ghost predicate Vetted(a: Arrival) {
    a.Asks? && a.request.Build? ==> Mountable(a.request.caches, a.request.binds)
  }

  /** What an output pipe has to read. */
  datatype Output = Quiet | Read(pieces: seq<seq<byte>>, ended: bool)

  /** What one poll finds: the root file system, a connection, the client's bytes
      or its end, output of the session and of the exec op, what has become of
      their commands, and whether the processes of a RUN step can be `killed`. */
  datatype Poll = Poll(
    rootfs: Tree.Fs, nextId: nat, arrival: Arrival, readable: bool, incoming: seq<byte>, lost: bool, hangup: bool,
    out: Output, err: Output, pressure: bool, opOut: Output, opErr: Output,
    status: ChildStatus, lastOut: seq<seq<byte>>, lastErr: seq<seq<byte>>,
    opStatus: ChildStatus, opLastOut: seq<seq<byte>>, opLastErr: seq<seq<byte>>, killed: bool)

  ghost predicate Plausible(p: Poll) {
    Vetted(p.arrival) && TargetDirectories.Root(p.rootfs, p.nextId)
  }

  /** The client's own events end its connection: it hangs up, or it is heard and
      its connection is lost or it offends. */
  ghost predicate Leaves(p: Poll, was: Input, taken: seq<byte>, fs: seq<Frame>) {
    p.hangup || (p.readable && ((p.lost && taken == p.incoming) || Offends(was.received + taken, was.handled + fs)))
  }

  function AfterRead(s: Shape, isStdout: bool, o: Output): Shape {
    if o.Read? then Took(s, isStdout, o.pieces, o.ended) else s
  }

  /** What a poll makes of a session: what its pipes had, and then its child. */
  function PolledOnce(s: Shape, out: Output, err: Output, status: ChildStatus, lastOut: seq<seq<byte>>, lastErr: seq<seq<byte>>): Shape {
    Waited(AfterRead(AfterRead(s, true, out), false, err), status, lastOut, lastErr)
  }

  lemma PolledIs(s: Shape, out: Output, err: Output, status: ChildStatus, lastOut: seq<seq<byte>>, lastErr: seq<seq<byte>>)
    ensures PolledOnce(s, out, err, status, lastOut, lastErr) == Waited(AfterRead(AfterRead(s, true, out), false, err), status, lastOut, lastErr)
  {
  }

  lemma WaitedEnds(s: Shape, status: ChildStatus, outPieces: seq<seq<byte>>, errPieces: seq<seq<byte>>)
    ensures var t := Waited(s, status, outPieces, errPieces);
            t.started == s.started && (s.started && !s.exited ==> t.exited == status.Ended? && (t.exited ==> t.exitCode == status.code && !t.outOpen && !t.errOpen))
  {
  }

  /** A descriptor from the kernel: any that is not in use. */
  method FreshDescriptor(inUse: int) returns (fd: nat)
    ensures fd != inUse
  {
    fd := if inUse == 0 then 1 else 0;
  }

  class Agent {
    const session: Session
    const opSession: Session
    const client: Client
    /** Never connected: takes the session's output and exit while an exec op holds the client. */
    const noClient: Client
    var op: Op
    var descendantsCleaned: bool
    /** Processes of a RUN step may be about. */
    ghost var descendants: bool
    /** The command of a transient exec may be about. */
    ghost var child: bool
    /** The mounts of a RUN step, and the root file system they are made in. */
    const mounts: MountTable
    var poisoned: bool

    constructor ()
      ensures Valid() && op.NoOp? && client.fd < 0 && session.Unused()
    {
      hide AllProper, Remembers, UpToDate, Parsing, StdinInOrder, AllTrack, Valid, Sound, SoundBut, Serving, NoIdleClient, MountsAccounted;
      hide Session.OutputsValid, Session.ControlValid, Session.Linked, Client.Valid, MountTable.Valid, MountTable.Accounted;
      session := new Session();
      opSession := new Session();
      client := new Client();
      noClient := new Client();
      mounts := new MountTable();
      op, descendantsCleaned, poisoned, descendants, child := NoOp, false, false, false, false;
      new;
      StartsValid();
    }

    lemma StartsValid()
      requires Apart() && Idle(session) && Idle(opSession) && mounts.Valid() && mounts.Accounted() && !mounts.Recorded()
      requires client.Valid() && client.fd < 0 && client.past == [] && client.memory.keep.Nothing?
      requires noClient.Valid() && noClient.fd < 0 && noClient.past == [] && noClient.memory.keep.Nothing?
      requires op.NoOp? && !poisoned && !descendants && !child
      ensures Valid()
    {
      hide AllProper, Remembers, UpToDate, Parsing, StdinInOrder, AllTrack, Session.OutputsValid, Session.ControlValid, Client.Valid, MountTable.Valid, MountTable.Accounted;
      NobodyTracksAny(session.serial, session.StoryNow());
    }

    /** The parts are different objects. */
    ghost predicate Apart() {
      && session != opSession && client != noClient && client.memory != noClient.memory
      && session.stdout != opSession.stdout && session.stdout != opSession.stderr
      && session.stderr != opSession.stdout && session.stderr != opSession.stderr
      && session.stdout.replay != opSession.stdout.replay && session.stdout.replay != opSession.stderr.replay
      && session.stderr.replay != opSession.stdout.replay && session.stderr.replay != opSession.stderr.replay
      && session.stdout.replay.data != opSession.stdout.replay.data && session.stdout.replay.data != opSession.stderr.replay.data
      && session.stderr.replay.data != opSession.stdout.replay.data && session.stderr.replay.data != opSession.stderr.replay.data
    }

    ghost function Parts(): set<object> {
      {session, session.stdout, session.stderr, session.stdout.replay, session.stderr.replay, session.stdout.replay.data, session.stderr.replay.data,
       opSession, opSession.stdout, opSession.stderr, opSession.stdout.replay, opSession.stderr.replay, opSession.stdout.replay.data, opSession.stderr.replay.data,
       client, client.memory, noClient, noClient.memory, mounts}
    }

    /** The client belongs to the exec op, and remembers what the session had sent before. */
    ghost predicate WithOp()
      reads this, Parts()
    {
      && opSession.Linked(client) && opSession.started && opSession.serial != session.serial
      && client.memory.keep.Keep? && client.memory.keep.serial == session.serial
      && Follows(client.memory.keep.story, session.StoryNow())
    }

    /** The client belongs to the exec op while there is one, and to the session otherwise. */
    ghost predicate Serving()
      reads this, Parts()
    {
      if op.NoOp? then session.Linked(client) && client.memory.keep.Nothing?
      else WithOp() && !opSession.told && !opSession.exited && !poisoned
    }

    ghost predicate Idle(s: Session)
      reads s, s.stdout, s.stderr, s.stdout.replay, s.stderr.replay, s.stdout.replay.data, s.stderr.replay.data
    {
      s.Valid() && s.Settled() && !s.closePending
    }

    /** Nobody holds a connection without business: an exec op, or a session that is not finished. */
    ghost predicate NoIdleClient()
      reads this, Parts()
    {
      client.fd >= 0 && op.NoOp? ==> session.started && !session.Finished()
    }

    /** Mounts are recorded, and processes may be about, for as long as their exec
        op goes, and without poison what is mounted is what is recorded. */
    ghost predicate MountsAccounted()
      reads this, mounts, opSession
    {
      && (mounts.Recorded() ==> op.BuildRun? && !descendantsCleaned) && (!poisoned ==> mounts.Accounted())
      && (descendants ==> op.BuildRun? && !descendantsCleaned) && (child ==> op.Transient? && !opSession.exited)
    }

    /** The sessions are in order and the stand-in for a client has never been connected. */
    ghost predicate SoundBut()
      reads this, Parts()
    {
      && Apart() && Idle(session) && Idle(opSession) && session.Linked(noClient) && mounts.Valid()
      && noClient.fd < 0 && noClient.past == [] && noClient.memory.keep.Nothing?
    }

    ghost predicate Sound()
      reads this, Parts()
    {
      SoundBut() && MountsAccounted()
    }

    /** What holds between polls. */
    ghost predicate Valid()
      reads this, Parts()
    {
      Sound() && Serving() && NoIdleClient()
    }

    /** What holds once the exec op has been looked after: if it is over for the
        client, or the agent is poisoned, the client is gone. */
    ghost predicate Stepped()
      reads this, Parts()
    {
      Sound() && !op.NoOp? && WithOp() && (poisoned || opSession.told ==> client.fd < 0)
    }

    /** `pump_session_output` for the session. A client is given up only when it takes no more. */
    method PumpSession(isStdout: bool, pieces: seq<seq<byte>>, ended: bool)
      requires Valid()
      modifies session`stdinOpen, session`pending, session`pendingOff, session`closePending, session`stdin, client, noClient
      modifies session.stdout, session.stderr, session.stdout.replay, session.stderr.replay, session.stdout.replay.data, session.stderr.replay.data
      ensures Valid() && session.ShapeNow() == Took(old(session.ShapeNow()), isStdout, pieces, ended)
      ensures client.fd == old(client.fd) || (client.fd < 0 && client.line == 0)
      ensures !op.NoOp? || old(client.fd) < 0 ==> client.fd == old(client.fd) && client.past == old(client.past) && client.line == old(client.line)
      ensures session.stdin.accepted == old(session.stdin).accepted
      ensures client.fd >= 0 ==> Notices(client.conn.log) == old(Notices(client.conn.log))
    {
      hide AllProper, Remembers, UpToDate, Parsing, StdinInOrder, AllTrack, Session.OutputsValid, Session.ControlValid, Client.Valid, Follows, MountTable.Valid, MountTable.Accounted, Notices, Delivered, Flat;
      ghost var before := session.StoryNow();
      if op.NoOp? {
        session.PumpOutput(client, isStdout, pieces, ended);
        NobodyTracksAny(session.serial, session.StoryNow());
      } else {
        session.PumpOutput(noClient, isStdout, pieces, ended);
      }
      KeepFollows(client.memory.keep, before, session.StoryNow());
    }

    /** `pump_session_output` for the exec op. */
    method PumpOp(isStdout: bool, pieces: seq<seq<byte>>, ended: bool)
      requires Valid() && !op.NoOp?
      modifies opSession`stdinOpen, opSession`pending, opSession`pendingOff, opSession`closePending, opSession`stdin, client
      modifies opSession.stdout, opSession.stderr, opSession.stdout.replay, opSession.stderr.replay, opSession.stdout.replay.data, opSession.stderr.replay.data
      ensures Valid() && opSession.ShapeNow() == Took(old(opSession.ShapeNow()), isStdout, pieces, ended)
      ensures client.fd == old(client.fd) || (client.fd < 0 && client.line == 0)
      ensures old(client.fd) < 0 ==> client.fd == old(client.fd) && client.past == old(client.past) && client.line == old(client.line)
      ensures opSession.stdin.accepted == old(opSession.stdin).accepted
      ensures client.fd >= 0 ==> Notices(client.conn.log) == old(Notices(client.conn.log))
    {
      hide AllProper, Remembers, UpToDate, Parsing, StdinInOrder, AllTrack, Session.OutputsValid, Session.ControlValid, Client.Valid, Follows, MountTable.Valid, MountTable.Accounted, Notices, Delivered, Flat;
      opSession.PumpOutput(client, isStdout, pieces, ended);
    }

    /** Whose standard input the client's bytes are for. */
    function InputSession(): Session
      reads this`op
    {
      if op.NoOp? then session else opSession
    }

    /** The client's own events. Those of a client that has been replaced since
        the poll are not the new one's: they leave it as it is. Standard input
        that the client owned ends with it only when the client was heard out:
        it was readable, its bytes are for a session and none of them was
        pending, and then it was given up for a loss or an offence (`gone`), it
        closed its input, or the command did. Hanging up by itself ends nothing. */
    method ClientEvent(polled: int, incoming: seq<byte>, lost: bool, readable: bool, hangup: bool) returns (ghost fs: seq<Frame>, ghost taken: seq<byte>, ghost gone: bool)
      requires Valid() && polled >= 0
      modifies session`stdinOpen, session`pending, session`pendingOff, session`closePending, session`stdin
      modifies opSession`stdinOpen, opSession`pending, opSession`pendingOff, opSession`closePending, opSession`stdin, client
      ensures Valid() && (client.fd == old(client.fd) || client.fd < 0)
      ensures old(client.fd) != polled || (!readable && !hangup) ==>
                client.conn == old(client.conn) && client.fd == old(client.fd) && client.past == old(client.past) && client.line == old(client.line)
      ensures old(client.fd) == polled && hangup ==> client.fd < 0
      ensures (gone ==> client.fd < 0 && readable) && (old(client.fd) >= 0 && client.fd < 0 ==> gone || hangup)
      ensures taken <= incoming && (gone ==> (lost && taken == incoming) || Offends(old(client.input).received + taken, old(client.input).handled + fs))
      ensures InputSession().stdin.accepted == old(InputSession().stdin).accepted + Delivered(fs, STDIN_STREAM)
      ensures var heard := old(client.fd) == polled && readable && !op.BuildRun? && old(InputSession().pending) == [];
              heard ==> (incoming != [] ==> taken != []) && (!gone ==> Decode(old(client.input).received + taken).frames == old(client.input).handled + fs)
      ensures var heard := old(client.fd) == polled && readable && !op.BuildRun? && old(InputSession().pending) == [];
              heard && lost && incoming == [] ==> gone
      ensures var heard := old(client.fd) == polled && readable && !op.BuildRun? && old(InputSession().pending) == [];
              if heard && old(client.stdinOwner) && old(InputSession().stdinOpen) then
                !InputSession().stdinOpen <==> gone || InputEnded(InputSession().stdin, fs)
              else if heard then !old(InputSession().stdinOpen) ==> !InputSession().stdinOpen
              else !gone && InputSession().stdinOpen == old(InputSession().stdinOpen) && InputSession().stdin == old(InputSession().stdin)
    {
      hide Valid, Offends, InputEnded, Decode, Delivered;
      fs, taken, gone := [], [], false;
      NothingDelivered();
      if client.fd != polled {
        return;
      }
      if readable && !op.BuildRun? {
        var rest;
        rest, taken, fs := Hear(incoming, lost);
        gone := client.fd < 0;
        assert taken <= incoming && (rest == [] ==> taken + rest == taken);
      }
      if hangup {
        HangUp();
      }
    }

    /** `pump_client_v1` for whoever the client's input is for. Nothing of what it
        sent is lost, and it is given up only for cause. */
    method Hear(incoming: seq<byte>, lost: bool) returns (rest: seq<byte>, ghost taken: seq<byte>, ghost fs: seq<Frame>)
      requires Valid() && !op.BuildRun? && client.fd >= 0
      modifies session`stdinOpen, session`pending, session`pendingOff, session`closePending, session`stdin
      modifies opSession`stdinOpen, opSession`pending, opSession`pendingOff, opSession`closePending, opSession`stdin, client
      ensures Valid() && (client.fd == old(client.fd) || client.fd < 0) && client.line == old(client.line) && incoming == taken + rest
      ensures client.fd >= 0 ==> client.input == Input(old(client.input).received + taken, old(client.input).handled + fs)
      ensures client.fd >= 0 ==> Decode(client.input.received).frames == client.input.handled
      ensures client.fd < 0 ==> (lost && rest == []) || Offends(old(client.input).received + taken, old(client.input).handled + fs)
      ensures old(InputSession().pending) == [] && incoming == [] && lost ==> client.fd < 0
      ensures old(InputSession().pending) == [] && incoming != [] ==> taken != []
      ensures InputSession().stdin.accepted == old(InputSession().stdin).accepted + Delivered(fs, STDIN_STREAM)
      ensures old(InputSession().pending) != [] ==>
                client.fd == old(client.fd) && InputSession().stdin == old(InputSession().stdin) && InputSession().stdinOpen == old(InputSession().stdinOpen)
      ensures !old(InputSession().stdinOpen) ==> !InputSession().stdinOpen
      ensures old(InputSession().stdinOpen) && old(client.stdinOwner) ==> (!InputSession().stdinOpen <==> client.fd < 0 || InputEnded(InputSession().stdin, fs))
    {
      hide AllProper, Remembers, UpToDate, Parsing, StdinInOrder, AllTrack, Session.OutputsValid, Session.ControlValid, Client.Valid, Follows, Offends, Delivered, InputEnded, MountTable.Valid, MountTable.Accounted, Decode;
      if op.Transient? {
        rest, taken, fs := opSession.PumpClient(client, incoming, lost);
        opSession.OpenIsNotEnded(fs);
      } else {
        rest, taken, fs := session.PumpClient(client, incoming, lost);
        session.OpenIsNotEnded(fs);
      }
      if client.fd >= 0 {
        client.HandledIsDecoded();
      }
    }

    method HangUp()
      requires Valid()
      modifies client
      ensures Valid() && client.fd < 0
    {
      hide AllProper, Remembers, UpToDate, Parsing, StdinInOrder, AllTrack, Session.OutputsValid, Session.ControlValid, Client.Valid, Follows, MountTable.Valid, MountTable.Accounted;
      if op.NoOp? {
        session.Drop(client);
      } else {
        opSession.Drop(client);
      }
    }

    /** `maybe_send_memory_pressure`, once the event is read. */
    method TellPressure()
      requires Valid()
      modifies client
      ensures Valid() && (client.fd == old(client.fd) || (client.fd < 0 && client.line == 0))
      ensures if !op.NoOp? || old(client.fd) < 0 || !session.started || session.exited then
                client.conn == old(client.conn) && client.fd == old(client.fd) && client.past == old(client.past) && client.line == old(client.line)
              else
                client.fd >= 0 ==> client.conn == old(client.conn).(log := old(client.conn).log + [NOTICE])
      ensures client.fd >= 0 ==>
                Notices(client.conn.log) == old(Notices(client.conn.log)) + if op.NoOp? && session.started && !session.exited then 1 else 0
    {
      hide AllProper, Remembers, UpToDate, Parsing, StdinInOrder, AllTrack, Session.OutputsValid, Session.ControlValid, Client.Valid, Follows, MountTable.Valid, MountTable.Accounted, Notices;
      if !op.NoOp? || client.fd < 0 || !session.started || session.exited {
        return;
      }
      OneMoreNotice(client.conn.log, NOTICE);
      session.TellEvent(client);
    }

    /** `drain_session_stdin` for the session or for the exec op. */
    method Drain(ofOp: bool)
      requires Valid()
      modifies session`stdinOpen, session`pending, session`pendingOff, session`closePending, session`stdin
      modifies opSession`stdinOpen, opSession`pending, opSession`pendingOff, opSession`closePending, opSession`stdin
      ensures Valid()
      ensures session.stdin.accepted == old(session.stdin).accepted && old(session.stdin).written <= session.stdin.written
      ensures opSession.stdin.accepted == old(opSession.stdin).accepted && old(opSession.stdin).written <= opSession.stdin.written
      ensures if ofOp then session.stdin == old(session.stdin) && session.pending == old(session.pending) && session.pendingOff == old(session.pendingOff)
              else opSession.stdin == old(opSession.stdin) && opSession.pending == old(opSession.pending) && opSession.pendingOff == old(opSession.pendingOff)
    {
      hide AllProper, Remembers, UpToDate, Parsing, StdinInOrder, AllTrack, Session.OutputsValid, Session.ControlValid, Client.Valid, Follows, MountTable.Valid, MountTable.Accounted;
      var room: nat, breaks: bool := *, *;
      if ofOp {
        opSession.DrainStdin(room, breaks);
      } else {
        session.DrainStdin(room, breaks);
      }
    }

    /** `poll_session_exit` and `maybe_send_session_exit` for the session. */
    method SessionExit(status: ChildStatus, outPieces: seq<seq<byte>>, errPieces: seq<seq<byte>>)
      requires Valid()
      modifies session`stdinOpen, session`pending, session`pendingOff, session`closePending, session`stdin, session`exited, session`exitCode, session`told, client, noClient
      modifies session.stdout, session.stderr, session.stdout.replay, session.stderr.replay, session.stdout.replay.data, session.stderr.replay.data
      ensures Valid() && session.ShapeNow() == Waited(old(session.ShapeNow()), status, outPieces, errPieces)
      ensures client.fd == old(client.fd) || (client.fd < 0 && (client.line == 0 || (session.Finished() && LastTold(client.past, session.exitCode))))
      ensures !op.NoOp? || old(client.fd) < 0 ==> client.fd == old(client.fd) && client.past == old(client.past) && client.line == old(client.line)
      ensures session.stdin.accepted == old(session.stdin).accepted
    {
      hide Valid, LastTold, Waited, Session.ShapeNow, Session.Finished;
      if op.NoOp? {
        ExitWithClient(status, outPieces, errPieces);
      } else {
        ExitAside(status, outPieces, errPieces);
      }
    }

    /** The session has the client. */
    method ExitWithClient(status: ChildStatus, outPieces: seq<seq<byte>>, errPieces: seq<seq<byte>>)
      requires Valid() && op.NoOp?
      modifies session`stdinOpen, session`pending, session`pendingOff, session`closePending, session`stdin, session`exited, session`exitCode, session`told, client, noClient
      modifies session.stdout, session.stderr, session.stdout.replay, session.stderr.replay, session.stdout.replay.data, session.stderr.replay.data
      ensures Valid() && session.ShapeNow() == Waited(old(session.ShapeNow()), status, outPieces, errPieces)
      ensures client.fd == old(client.fd) || (client.fd < 0 && (client.line == 0 || (session.Finished() && LastTold(client.past, session.exitCode))))
      ensures !op.NoOp? || old(client.fd) < 0 ==> client.fd == old(client.fd) && client.past == old(client.past) && client.line == old(client.line)
      ensures session.stdin.accepted == old(session.stdin).accepted
    {
      hide AllProper, Remembers, UpToDate, Parsing, StdinInOrder, AllTrack, Session.OutputsValid, Session.ControlValid, Client.Valid, Follows, LastTold, Waited, MountTable.Valid, MountTable.Accounted, Delivered, Flat;
      session.PollExit(client, status, outPieces, errPieces);
      session.MaybeSendExit(client);
      NobodyTracksAny(session.serial, session.StoryNow());
    }

    /** The exec op has the client. */
    method ExitAside(status: ChildStatus, outPieces: seq<seq<byte>>, errPieces: seq<seq<byte>>)
      requires Valid() && !op.NoOp?
      modifies session`stdinOpen, session`pending, session`pendingOff, session`closePending, session`stdin, session`exited, session`exitCode, session`told, client, noClient
      modifies session.stdout, session.stderr, session.stdout.replay, session.stderr.replay, session.stdout.replay.data, session.stderr.replay.data
      ensures Valid() && session.ShapeNow() == Waited(old(session.ShapeNow()), status, outPieces, errPieces)
      ensures client.fd == old(client.fd) || (client.fd < 0 && (client.line == 0 || (session.Finished() && LastTold(client.past, session.exitCode))))
      ensures !op.NoOp? || old(client.fd) < 0 ==> client.fd == old(client.fd) && client.past == old(client.past) && client.line == old(client.line)
      ensures session.stdin.accepted == old(session.stdin).accepted
    {
      hide AllProper, Remembers, UpToDate, Parsing, StdinInOrder, AllTrack, Session.OutputsValid, Session.ControlValid, Client.Valid, Follows, LastTold, Waited, MountTable.Valid, MountTable.Accounted, Delivered, Flat;
      ghost var before := session.StoryNow();
      session.PollExit(noClient, status, outPieces, errPieces);
      session.MaybeSendExit(noClient);
      KeepFollows(client.memory.keep, before, session.StoryNow());
    }

    /** The exec op with its client, before anything is made of its exit. */
    ghost predicate Polled()
      reads this, Parts()
    {
      Sound() && !op.NoOp? && WithOp() && !opSession.told && !poisoned
    }

    /** `poll_session_exit` for the exec op. */
    method PollOp(status: ChildStatus, outPieces: seq<seq<byte>>, errPieces: seq<seq<byte>>)
      requires Valid() && !op.NoOp?
      modifies this`child
      modifies opSession`stdinOpen, opSession`pending, opSession`pendingOff, opSession`closePending, opSession`stdin, opSession`exited, opSession`exitCode, opSession`told, client
      modifies opSession.stdout, opSession.stderr, opSession.stdout.replay, opSession.stderr.replay, opSession.stdout.replay.data, opSession.stderr.replay.data
      ensures Polled() && opSession.ShapeNow() == Waited(old(opSession.ShapeNow()), status, outPieces, errPieces)
      ensures (opSession.exited <==> opSession.Finished()) && (opSession.exited <==> status.Ended?) && (status.Ended? ==> opSession.exitCode == status.code)
      ensures client.fd == old(client.fd) || (client.fd < 0 && client.line == 0)
      ensures old(client.fd) < 0 ==> client.fd == old(client.fd) && client.past == old(client.past) && client.line == old(client.line)
      ensures opSession.stdin.accepted == old(opSession.stdin).accepted
    {
      hide AllProper, Remembers, UpToDate, Parsing, StdinInOrder, AllTrack, Session.OutputsValid, Session.ControlValid, Client.Valid, Follows, Waited, MountTable.Valid, MountTable.Accounted, Delivered, Flat;
      WaitedEnds(opSession.ShapeNow(), status, outPieces, errPieces);
      opSession.PollExit(client, status, outPieces, errPieces);
      child := child && !opSession.exited;
    }

    /** `maybe_send_session_exit` for the exec op. */
    method TellExit()
      requires Polled()
      modifies client, opSession`told
      ensures Stepped() && (opSession.told ==> opSession.Finished())
      ensures if old(client.fd) < 0 || !opSession.Finished() then client.fd == old(client.fd) && client.past == old(client.past) && client.line == old(client.line)
              else client.fd < 0 && (client.line == 0 || LastTold(client.past, opSession.exitCode))
    {
      hide AllProper, Remembers, UpToDate, Parsing, StdinInOrder, AllTrack, Session.OutputsValid, Session.ControlValid, Client.Valid, Follows, LastTold, MountTable.Valid, MountTable.Accounted;
      opSession.MaybeSendExit(client);
    }

    /** The RUN command is gone: its descendants go, and then its mounts. A
        descendant that stays ends the agent; a mount that stays poisons it. */
    method CleanUpRun(killed: bool) returns (halted: bool)
      requires Polled() && op.BuildRun? && !descendantsCleaned
      modifies this`descendantsCleaned, this`descendants, this`poisoned, mounts, client
      ensures halted <==> !killed
      ensures halted ==> client.fd < 0 && (old(client.fd) < 0 || client.line == 0 || LastTold(client.past, 125))
      ensures halted && old(client.fd) < 0 ==> client.line == old(client.line)
      ensures !halted && !poisoned ==>
                Polled() && descendantsCleaned && mounts.up == {} && !mounts.Recorded() && client.fd == old(client.fd) && client.past == old(client.past) && client.line == old(client.line)
      ensures !halted && poisoned ==> Stepped() && descendantsCleaned && client.fd < 0 && !mounts.Recorded()
      ensures !halted && poisoned ==>
                if old(client.fd) < 0 then client.line == old(client.line) else client.line == 0 || LastTold(client.past, 125)
    {
      hide AllProper, Remembers, UpToDate, Parsing, StdinInOrder, AllTrack, Session.OutputsValid, Session.ControlValid, Client.Valid, Follows, LastTold, MountTable.Valid, MountTable.Accounted;
      halted := false;
      var cleaned := KillDescendants(killed);
      if !cleaned {
        opSession.Refuse(client, 125);
        return true;
      }
      descendantsCleaned := true;
      var ok := mounts.TearDown();
      if !ok {
        poisoned := true;
        opSession.Refuse(client, 125);
      }
    }

    /** `clean_build_run_processes`. */
    method KillDescendants(killed: bool) returns (ok: bool)
      modifies this`descendants
      ensures ok == killed && descendants == (old(descendants) && !killed)
    {
      ok, descendants := killed, descendants && !killed;
    }

    lemma PolledIsStepped()
      requires Polled()
      ensures Stepped() && !opSession.told && !poisoned && (descendantsCleaned ==> !mounts.Recorded() && mounts.up == {})
    {
      hide Session.OutputsValid, Session.ControlValid, Session.Linked;
    }

    /** `step_build_exec`. The RUN step's own exit status goes out only once its
        descendants are gone and its mounts are torn down. */
    method StepBuildExec(status: ChildStatus, outPieces: seq<seq<byte>>, errPieces: seq<seq<byte>>, killed: bool) returns (halted: bool)
      requires Valid() && op.BuildRun?
      modifies this`descendantsCleaned, this`descendants, this`poisoned, mounts
      ensures halted <==> status.Ended? && !old(descendantsCleaned) && !killed
      ensures halted ==> client.fd < 0 && (old(client.fd) < 0 || client.line == 0 || LastTold(client.past, 125))
      modifies this`child
      modifies opSession`stdinOpen, opSession`pending, opSession`pendingOff, opSession`closePending, opSession`stdin, opSession`exited, opSession`exitCode, opSession`told, client
      modifies opSession.stdout, opSession.stderr, opSession.stdout.replay, opSession.stderr.replay, opSession.stdout.replay.data, opSession.stderr.replay.data
      ensures !halted ==> Stepped() && (client.fd == old(client.fd) || client.fd < 0)
      ensures !halted ==> opSession.ShapeNow() == Waited(old(opSession.ShapeNow()), status, outPieces, errPieces) && (status.Ended? <==> opSession.Finished())
      ensures opSession.told ==> descendantsCleaned && mounts.up == {} && !mounts.Recorded()
      ensures !halted && status.Ended? ==> client.fd < 0 && !mounts.Recorded() && descendantsCleaned
      ensures status.Alive? ==> descendantsCleaned == old(descendantsCleaned)
      ensures !halted && old(client.fd) >= 0 && client.fd < 0 ==>
                client.line == 0 || (status.Ended? && LastTold(client.past, if poisoned then 125 else status.code))
      ensures !halted && old(client.fd) < 0 ==> client.line == old(client.line)
      ensures !halted ==> opSession.stdin.accepted == old(opSession.stdin).accepted
    {
      hide Valid, Polled, Stepped, LastTold, Waited;
      halted := false;
      PollOp(status, outPieces, errPieces);
      PolledIsStepped();
      if opSession.exited && !descendantsCleaned {
        halted := CleanUpRun(killed);
        if halted || poisoned {
          return;
        }
      }
      if descendantsCleaned {
        TellExit();
      }
    }

    /** `poll_session_exit` and `maybe_send_session_exit` for a transient exec. */
    method StepTransient(status: ChildStatus, outPieces: seq<seq<byte>>, errPieces: seq<seq<byte>>)
      requires Valid() && op.Transient?
      modifies this`child
      modifies opSession`stdinOpen, opSession`pending, opSession`pendingOff, opSession`closePending, opSession`stdin, opSession`exited, opSession`exitCode, opSession`told, client
      modifies opSession.stdout, opSession.stderr, opSession.stdout.replay, opSession.stderr.replay, opSession.stdout.replay.data, opSession.stderr.replay.data
      ensures Stepped() && (client.fd == old(client.fd) || client.fd < 0)
      ensures opSession.ShapeNow() == Waited(old(opSession.ShapeNow()), status, outPieces, errPieces) && (status.Ended? <==> opSession.Finished())
      ensures status.Ended? ==> client.fd < 0
      ensures old(client.fd) >= 0 && client.fd < 0 ==> client.line == 0 || (status.Ended? && LastTold(client.past, status.code))
      ensures old(client.fd) < 0 ==> client.line == old(client.line)
      ensures opSession.stdin.accepted == old(opSession.stdin).accepted
    {
      hide Valid, Polled, Stepped, LastTold, Waited;
      PollOp(status, outPieces, errPieces);
      TellExit();
    }

    /** What `finish_build_exec` does about a RUN step whose client went first. */
    method AbandonRun(killed: bool) returns (halted: bool)
      requires Stepped() && op.BuildRun? && client.fd < 0
      modifies this`descendants, this`poisoned, mounts
      ensures halted <==> !descendantsCleaned && !killed
      ensures !halted ==> SoundBut() && WithOp() && (!poisoned ==> mounts.Accounted()) && !mounts.Recorded() && !descendants
      ensures old(poisoned) ==> poisoned
      ensures !old(mounts.Recorded()) ==> poisoned == old(poisoned)
    {
      hide Session.OutputsValid, Session.ControlValid, Session.Linked;
      halted := false;
      if client.fd < 0 && opSession.started && !descendantsCleaned {
        var cleaned := KillDescendants(killed);
        if !cleaned {
          return true;
        }
      }
      if mounts.Recorded() {
        var ok := mounts.TearDown();
        if !ok {
          poisoned := true;
        }
      }
    }

    /** What `finish_transient_exec` does about a command whose client went first. */
    method KillCommand()
      requires child ==> op.Transient? && !opSession.exited && opSession.started && client.fd < 0
      modifies this`child
      ensures !child
    {
      if client.fd < 0 && opSession.started && !opSession.exited {
        child := false;
      }
    }

    /** `finish_transient_exec` and `finish_build_exec`: the op's leftovers go, the client goes. */
    method FinishOp(killed: bool) returns (halted: bool)
      requires Stepped() && client.fd < 0
      modifies this`op, this`descendants, this`child, this`poisoned, mounts, client, client.memory
      modifies opSession, opSession.stdout, opSession.stderr, opSession.stdout.replay, opSession.stderr.replay
      ensures halted <==> old(op).BuildRun? && !descendantsCleaned && !killed
      ensures !halted ==> Valid() && op.NoOp? && client.fd < 0 && client.line == old(client.line)
      ensures !halted && old(client.fd) < 0 ==> client.past == old(client.past)
      ensures old(poisoned) ==> poisoned
      ensures !old(mounts.Recorded()) ==> poisoned == old(poisoned)
    {
      hide AllProper, Remembers, UpToDate, Parsing, StdinInOrder, AllTrack, Session.OutputsValid, Session.ControlValid, Client.Valid, Follows, Session.Linked, MountTable.Valid, MountTable.Accounted;
      halted := false;
      if op.BuildRun? {
        halted := AbandonRun(killed);
        if halted {
          return;
        }
      } else {
        KillCommand();
      }
      CloseOp();
    }

    /** The exec op's client and slot are free again. */
    method CloseOp()
      requires SoundBut() && WithOp() && (!poisoned ==> mounts.Accounted()) && !mounts.Recorded() && !descendants && !child && client.fd < 0
      modifies this`op, client, client.memory, opSession, opSession.stdout, opSession.stderr, opSession.stdout.replay, opSession.stderr.replay
      ensures Valid() && op.NoOp? && client.fd < 0 && client.line == old(client.line) && client.past == old(client.past)
    {
      hide AllProper, Remembers, UpToDate, Parsing, StdinInOrder, AllTrack, Session.OutputsValid, Session.ControlValid, Client.Valid, Follows, Session.Linked, MountTable.Valid, MountTable.Accounted;
      opSession.Drop(client);
      Return();
      opSession.Reset();
      op := NoOp;
    }

    /** The client is the session's again, with all it remembers of it. */
    ghost method Return()
      requires SoundBut() && WithOp() && client.fd < 0
      modifies client.memory
      ensures SoundBut() && session.Linked(client) && client.memory.keep.Nothing?
    {
      hide AllProper, UpToDate, Parsing, StdinInOrder, Session.OutputsValid, Session.ControlValid, Follows, MountTable.Valid, MountTable.Accounted;
      var keep := client.memory.keep;
      TracksMore(client.past, keep.serial, keep.story, session.StoryNow());
      client.Remember(Nothing);
    }

    // ---- Requests ----

    /** A new connection is in place and nothing has been done for it yet. */
    ghost predicate Greeting()
      reads this, Parts()
    {
      Sound() && op.NoOp? && session.Linked(client) && client.memory.keep.Nothing? && client.fd >= 0 && client.conn == NOBODY
    }

    /** A refusal: an error exit and the end of the connection. */
    method Refuse(code: int)
      requires Greeting()
      modifies client
      ensures Valid() && client.fd < 0 && (client.line == 0 || LastTold(client.past, code))
      ensures client.past != [] && InPlace(client.past[|client.past| - 1], old(client.stdoutOffset), old(client.stderrOffset))
    {
      hide AllProper, Remembers, UpToDate, Parsing, StdinInOrder, AllTrack, Session.OutputsValid, Session.ControlValid, Client.Valid, Follows, LastTold, MountTable.Valid, MountTable.Accounted, InPlace, AtOffsets;
      NobodyAtOffsets(client.stdoutOffset, client.stderrOffset);
      session.Refuse(client, code);
    }

    /** A request that is answered at once. What the answer holds is left open,
        but an exit status is the last of it. */
    method AnswerOnce()
      requires Greeting()
      modifies client
      ensures Valid() && client.fd < 0
    {
      hide AllProper, Remembers, UpToDate, Parsing, StdinInOrder, AllTrack, Session.OutputsValid, Session.ControlValid, Client.Valid, Follows, LastTold, MountTable.Valid, MountTable.Accounted;
      var refused: bool, code: int := *, *;
      if refused {
        session.Refuse(client, code);
        return;
      }
      ghost var frames: seq<Frame> :| NoExit(frames);
      session.Answer(client, frames);
    }

    /** `start_transient_exec`: an exec beside a session that is still running. */
    method StartTransient(request: Request, starts: bool)
      requires Greeting() && request.Start? && session.started && !session.Finished() && !poisoned
      modifies this`op, this`child, client, client.memory, opSession, opSession.stdout, opSession.stderr, opSession.stdout.replay, opSession.stderr.replay
      ensures Valid() && (op.NoOp? <==> client.fd < 0)
      ensures client.fd >= 0 ==> client.fd == old(client.fd) && op.Transient? && opSession.sessionId == request.sessionId && FromTheStart(opSession)
      ensures client.fd >= 0 <==> !request.tty && !request.pressure && starts
      ensures client.fd < 0 ==> client.line == 0 || LastTold(client.past, if request.tty || request.pressure then 2 else 127)
      ensures client.fd >= 0 ==> client.stdinOwner == old(client.stdinOwner) && client.terminalOwner == old(client.terminalOwner) && client.stdinOffset == old(client.stdinOffset) && client.terminalInputOffset == old(client.terminalInputOffset)
      ensures client.fd >= 0 ==> opSession.stdinOpen == request.stdin && opSession.pending == [] && !opSession.tty
    {
      hide AllProper, Remembers, UpToDate, Parsing, StdinInOrder, AllTrack, Session.OutputsValid, Session.ControlValid, Client.Valid, Follows, LastTold, MountTable.Valid, MountTable.Accounted, InPlace, AtOffsets;
      if request.tty || request.pressure {
        session.Refuse(client, 2);
        return;
      }
      var ok := StartOp(request.sessionId, request.stdin, starts);
      if ok {
        op, child := Transient, true;
      }
    }

    /** The client follows the streams of a session from their beginning. */
    ghost predicate FromTheStart(s: Session)
      reads s, client
    {
      client.conn.served && client.conn.session == s.serial && client.conn.fromOut == 0 && client.conn.fromErr == 0
    }

    /** `start_session` in the exec op's slot, with the client following it. */
    method StartOp(sessionId: string, stdin: bool, starts: bool) returns (ok: bool)
      requires Greeting()
      modifies client, client.memory, opSession, opSession.stdout, opSession.stderr, opSession.stdout.replay, opSession.stderr.replay
      ensures ok ==> Sound() && WithOp() && !opSession.told && !opSession.exited && client.fd == old(client.fd)
      ensures ok ==> opSession.sessionId == sessionId && FromTheStart(opSession)
      ensures ok == starts && (!ok ==> Valid() && client.fd < 0 && (client.line == 0 || LastTold(client.past, 127)))
      ensures ok ==> client.stdinOwner == old(client.stdinOwner) && client.terminalOwner == old(client.terminalOwner) && client.stdinOffset == old(client.stdinOffset) && client.terminalInputOffset == old(client.terminalInputOffset)
      ensures ok ==> opSession.stdinOpen == stdin && opSession.pending == [] && !opSession.tty
    {
      hide AllProper, Remembers, UpToDate, Parsing, StdinInOrder, AllTrack, Session.OutputsValid, Session.ControlValid, Client.Valid, Follows, LastTold, MountTable.Valid, MountTable.Accounted, InPlace, AtOffsets;
      ghost var serial := FreshSerial(client.past, session.serial);
      ok := opSession.Start(sessionId, stdin, false, starts, serial);
      if !ok {
        session.Refuse(client, 127);
        return;
      }
      FreshTracks(client.past, session.serial, serial, opSession.StoryNow());
      RememberSession();
      opSession.Welcome(client);
    }

    ghost method RememberSession()
      requires SoundBut() && session.Linked(client) && (client.fd >= 0 ==> !client.conn.served)
      modifies client.memory
      ensures SoundBut() && client.Valid() && client.memory.keep == Keep(session.serial, session.StoryNow())
      ensures Follows(client.memory.keep.story, session.StoryNow())
    {
      hide AllProper, UpToDate, Parsing, StdinInOrder, AllTrack, Session.OutputsValid, Session.ControlValid, Client.Valid, Follows, MountTable.Valid, MountTable.Accounted;
      client.Remember(Keep(session.serial, session.StoryNow()));
      FollowsItself(session.StoryNow());
    }

    /** A RUN request: its command is read, its mounts are set up, and then
        `start_build_exec`. Mounts that cannot be taken back poison the agent. */
    method StartBuild(request: Request, ready: bool, streamed: bool, starts: bool)
      requires Greeting() && !poisoned && request.Build? && Mountable(request.caches, request.binds)
      requires TargetDirectories.Root(mounts.rootfs, mounts.nextId)
      modifies this`op, this`descendantsCleaned, this`descendants, this`poisoned, mounts
      modifies client, client.memory, opSession, opSession.stdout, opSession.stderr, opSession.stdout.replay, opSession.stderr.replay
      ensures Valid() && (op.NoOp? <==> client.fd < 0)
      ensures client.fd >= 0 ==> client.fd == old(client.fd) && op.BuildRun? && !descendantsCleaned && FromTheStart(opSession)
      ensures client.fd >= 0 ==>
                mounts.up == RunMounts.Places(request.caches + request.binds) + if request.caches != [] then {RunMounts.CacheDisk} else {}
      ensures poisoned ==> client.fd < 0 && (client.line == 0 || LastTold(client.past, 125))
      ensures !(ready && streamed && starts) ==> client.fd < 0
      ensures client.fd < 0 && client.line != 0 && !poisoned ==>
                if !ready then LastTold(client.past, 126) else if !streamed then LastTold(client.past, 2)
                else LastTold(client.past, 126) || (!starts && LastTold(client.past, 127))
      ensures client.fd >= 0 ==> client.stdinOwner == old(client.stdinOwner) && client.terminalOwner == old(client.terminalOwner) && client.stdinOffset == old(client.stdinOffset) && client.terminalInputOffset == old(client.terminalInputOffset)
      ensures client.fd >= 0 ==> !opSession.stdinOpen && !opSession.tty && opSession.sessionId == request.sessionId
    {
      hide Greeting, Mounting, Valid, Sound, SoundBut, Serving, WithOp, NoIdleClient, MountsAccounted, LastTold, Mountable, InPlace, AtOffsets;
      NobodyElse();
      if !ready {
        Refuse(126);
        return;
      }
      if !streamed {
        Refuse(2);
        return;
      }
      var ok := SetUpRun(request.caches, request.binds);
      if ok {
        ok := StartRun(request.sessionId, starts);
      }
      if ok {
        BeginRun();
      }
    }

    lemma NobodyElse()
      requires Greeting()
      ensures op.NoOp? && client.fd >= 0 && !child
    {
    }

    /** The RUN step is the exec op. */
    method BeginRun()
      requires SoundBut() && WithOp() && !opSession.told && !opSession.exited && !poisoned && mounts.Accounted() && !child
      modifies this`op, this`descendantsCleaned, this`descendants
      ensures Valid() && op.BuildRun? && !descendantsCleaned && descendants
    {
      hide AllProper, Remembers, UpToDate, Parsing, StdinInOrder, AllTrack, Session.OutputsValid, Session.ControlValid, Client.Valid, Follows, Session.Linked, MountTable.Valid, MountTable.Accounted;
      op, descendantsCleaned, descendants := BuildRun, false, true;
    }

    /** The RUN step's mounts, or none of them. */
    method SetUpRun(caches: seq<MountTargets.Target>, binds: seq<MountTargets.Target>) returns (ok: bool)
      requires Greeting() && !poisoned && Mountable(caches, binds) && TargetDirectories.Root(mounts.rootfs, mounts.nextId)
      modifies this`poisoned, mounts, client
      ensures ok ==> Mounting() && client.fd == old(client.fd)
      ensures ok ==> mounts.up == RunMounts.Places(caches + binds) + if caches != [] then {RunMounts.CacheDisk} else {}
      ensures !ok ==> Valid() && client.fd < 0 && (client.line == 0 || LastTold(client.past, if poisoned then 125 else 126))
      ensures !ok && !poisoned ==> mounts.rootfs == old(mounts.rootfs) && mounts.up == {}
      ensures ok ==> client.stdinOwner == old(client.stdinOwner) && client.terminalOwner == old(client.terminalOwner) && client.stdinOffset == old(client.stdinOffset) && client.terminalInputOffset == old(client.terminalInputOffset)
    {
      hide AllProper, Remembers, UpToDate, Parsing, StdinInOrder, AllTrack, Session.OutputsValid, Session.ControlValid, Client.Valid, Follows, LastTold, MountTable.Valid, MountTable.Accounted, Mountable, InPlace, AtOffsets;
      var rc := mounts.SetUp(caches, binds);
      ok := rc.Settled?;
      if !ok {
        poisoned := rc.Uncertain?;
        session.Refuse(client, if poisoned then 125 else 126);
      }
    }

    /** `start_build_exec`. */
    method StartRun(sessionId: string, starts: bool) returns (ok: bool)
      requires Mounting()
      modifies this`poisoned, mounts
      modifies client, client.memory, opSession, opSession.stdout, opSession.stderr, opSession.stdout.replay, opSession.stderr.replay
      ensures ok ==> SoundBut() && WithOp() && !opSession.told && !opSession.exited && !poisoned && mounts.Accounted() && client.fd == old(client.fd)
      ensures ok == starts && (ok ==> FromTheStart(opSession) && mounts.up == old(mounts.up))
      ensures !ok ==> Valid() && client.fd < 0 && (client.line == 0 || LastTold(client.past, if poisoned then 125 else 127))
      ensures ok ==> client.stdinOwner == old(client.stdinOwner) && client.terminalOwner == old(client.terminalOwner) && client.stdinOffset == old(client.stdinOffset) && client.terminalInputOffset == old(client.terminalInputOffset) && !opSession.stdinOpen && !opSession.tty && opSession.sessionId == sessionId
    {
      hide AllProper, Remembers, UpToDate, Parsing, StdinInOrder, AllTrack, Session.OutputsValid, Session.ControlValid, Client.Valid, Follows, LastTold, MountTable.Valid, MountTable.Accounted, InPlace, AtOffsets;
      ghost var serial := FreshSerial(client.past, session.serial);
      ok := opSession.Start(sessionId, false, false, starts, serial);
      if !ok {
        GiveUpRun();
        return;
      }
      FreshTracks(client.past, session.serial, serial, opSession.StoryNow());
      RememberSession();
      opSession.Welcome(client);
    }

    /** The command could not be started: its mounts are taken down again. */
    method GiveUpRun()
      requires Mounting()
      modifies this`poisoned, mounts, client
      ensures Valid() && client.fd < 0 && (client.line == 0 || LastTold(client.past, if poisoned then 125 else 127))
    {
      hide AllProper, Remembers, UpToDate, Parsing, StdinInOrder, AllTrack, Session.OutputsValid, Session.ControlValid, Client.Valid, Follows, LastTold, MountTable.Valid, MountTable.Accounted, InPlace, AtOffsets;
      var down := mounts.TearDown();
      if !down {
        poisoned := true;
      }
      session.Refuse(client, if down then 127 else 125);
    }

    /** A RUN step's mounts are up and its command is not started yet. */
    ghost predicate Mounting()
      reads this, Parts()
    {
      && SoundBut() && op.NoOp? && session.Linked(client) && client.memory.keep.Nothing? && client.fd >= 0 && client.conn == NOBODY
      && !poisoned && mounts.Accounted() && !descendants && !child
    }

    /** A start request: resume the session of that name, run beside a session
        that is still going, or become the new session. */
    method StartSession(request: Request, ready: bool, starts: bool)
      requires Greeting() && request.Start? && !poisoned
      modifies this`op, this`child, client, client.memory, opSession, opSession.stdout, opSession.stderr, opSession.stdout.replay, opSession.stderr.replay
      modifies session, session.stdout, session.stderr, session.stdout.replay, session.stderr.replay
      ensures Valid() && (client.fd >= 0 ==> client.fd == old(client.fd)) && !op.BuildRun?
      ensures session.serial == old(session.serial) ==> session.ShapeNow() == old(session.ShapeNow())
      ensures old(session.started && !session.Finished()) ==> session.serial == old(session.serial)
      ensures client.fd >= 0 ==> (if op.NoOp? then session else opSession).sessionId == request.sessionId
      ensures client.fd >= 0 && op.NoOp? && session.serial == old(session.serial) ==> ServedFrom(request.outOffset, request.errOffset)
      ensures client.fd >= 0 ==> client.stdinOwner == old(client.stdinOwner) && client.terminalOwner == old(client.terminalOwner) && client.stdinOffset == old(client.stdinOffset) && client.terminalInputOffset == old(client.terminalInputOffset)
      ensures client.fd >= 0 && (!op.NoOp? || session.serial != old(session.serial)) ==>
                InputSession().stdinOpen == request.stdin && InputSession().pending == [] && InputSession().tty == (op.NoOp? && request.tty)
      ensures !ready ==> client.fd < 0 && (client.line == 0 || LastTold(client.past, 126))
      ensures ready && old(session.started && session.sessionId == request.sessionId) ==>
                && session.serial == old(session.serial) && op.NoOp?
                && (client.fd < 0 ==> client.line == 0 || LastTold(client.past, if Available(request) then session.exitCode else 125))
                && (Available(request) && !session.Finished() ==> client.fd >= 0 || client.line == 0)
      ensures ready && old(session.started && !session.Finished() && session.sessionId != request.sessionId) ==>
                && (client.fd >= 0 <==> !request.tty && !request.pressure && starts)
                && (client.fd < 0 ==> client.line == 0 || LastTold(client.past, if request.tty || request.pressure then 2 else 127))
      ensures ready && old(!session.started || (session.Finished() && session.sessionId != request.sessionId)) ==>
                && (client.fd >= 0 <==> starts) && (starts ==> op.NoOp? && session.serial != old(session.serial))
                && (!starts ==> client.line == 0 || LastTold(client.past, 127))
    {
      hide AllProper, Remembers, UpToDate, Parsing, StdinInOrder, AllTrack, Session.OutputsValid, Session.ControlValid, Client.Valid, Follows, LastTold, Base, MountTable.Valid, MountTable.Accounted, InPlace, AtOffsets, Available, Session.ShapeNow, MountsAccounted, WithOp, Idle;
      if !ready {
        session.Refuse(client, 126);
        return;
      }
      if session.started {
        if request.sessionId == session.sessionId {
          ResumeSession(request);
          return;
        }
        if !session.Finished() {
          StartTransient(request, starts);
          return;
        }
      }
      NewSession(request, starts);
    }

    /** The session of that name goes on for the client from the offsets it asks for. */
    method ResumeSession(request: Request)
      requires Greeting() && request.Start? && session.started
      modifies client, session`stdinOpen, session`pending, session`pendingOff, session`closePending, session`stdin, session`told
      ensures Valid() && (client.fd >= 0 ==> client.fd == old(client.fd) && ServedFrom(request.outOffset, request.errOffset))
      ensures client.fd < 0 ==> client.line == 0 || LastTold(client.past, if Available(request) then session.exitCode else 125)
      ensures Available(request) && !session.Finished() ==> client.fd >= 0 || client.line == 0
      ensures client.fd >= 0 ==> client.stdinOwner == old(client.stdinOwner) && client.terminalOwner == old(client.terminalOwner) && client.stdinOffset == old(client.stdinOffset) && client.terminalInputOffset == old(client.terminalInputOffset)
    {
      hide AllProper, Remembers, UpToDate, Parsing, StdinInOrder, AllTrack, Session.OutputsValid, Session.ControlValid, Client.Valid, Follows, LastTold, Base, MountTable.Valid, MountTable.Accounted, InPlace, AtOffsets;
      var ok := session.Attach(client, request.outOffset, request.errOffset);
      NobodyTracksAny(session.serial, session.StoryNow());
    }

    /** The rings still have what the request asks for. */
    ghost predicate Available(request: Request)
      requires request.Start? || request.Attach?
      reads session.stdout, session.stderr
    {
      && Base(|session.stdout.stream|) <= request.outOffset <= |session.stdout.stream|
      && Base(|session.stderr.stream|) <= request.errOffset <= |session.stderr.stream|
    }

    /** The client follows the session's streams from the offsets it asked for. */
    ghost predicate ServedFrom(outOffset: nat, errOffset: nat)
      reads session, client
    {
      client.conn.served && client.conn.session == session.serial && client.conn.fromOut == outOffset && client.conn.fromErr == errOffset
    }

    /** The session slot is free: the request's command becomes the session, and
        the client follows it from the beginning. */
    method NewSession(request: Request, starts: bool)
      requires Greeting() && request.Start? && (session.started ==> session.Finished())
      modifies client, session, session.stdout, session.stderr, session.stdout.replay, session.stderr.replay
      ensures Valid() && (client.fd >= 0 ==> client.fd == old(client.fd)) && session.serial != old(session.serial)
      ensures client.fd >= 0 ==> session.sessionId == request.sessionId && session.tty == request.tty && (!request.tty ==> ServedFrom(0, 0))
      ensures client.fd >= 0 ==> client.stdinOwner == old(client.stdinOwner) && client.terminalOwner == old(client.terminalOwner) && client.stdinOffset == old(client.stdinOffset) && client.terminalInputOffset == old(client.terminalInputOffset)
      ensures client.fd >= 0 ==> session.stdinOpen == request.stdin && session.pending == []
      ensures client.fd >= 0 <==> starts
      ensures !starts ==> client.line == 0 || LastTold(client.past, 127)
    {
      hide AllProper, Remembers, UpToDate, Parsing, StdinInOrder, AllTrack, Session.OutputsValid, Session.ControlValid, Client.Valid, Follows, LastTold, MountTable.Valid, MountTable.Accounted, InPlace, AtOffsets, MountsAccounted, WithOp;
      ghost var serial := FreshSerial(client.past, session.serial);
      if session.started {
        session.Reset();
      }
      var ok := session.Start(request.sessionId, request.stdin, request.tty, starts, serial);
      FreshTracks(client.past, old(session.serial), serial, session.StoryNow());
      NobodyTracksAny(serial, session.StoryNow());
      if !ok {
        session.Refuse(client, 127);
        return;
      }
      if !request.tty {
        session.Welcome(client);
      }
    }

    /** The session has not the input or the terminal that is asked for. */
    ghost predicate Barred(request: Request, stdinOpen: bool)
      requires request.Attach?
      reads session, session.stdout
    {
      if request.stdin then !session.stdinCapable || !stdinOpen
      else request.tty && (!session.tty || (request.interactive && !session.stdout.isOpen))
    }

    /** An attach request: the session must be the one named and have what is asked for. */
    method AttachSession(request: Request, ready: bool)
      requires Greeting() && request.Attach?
      modifies client, session`stdinOpen, session`pending, session`pendingOff, session`closePending, session`stdin, session`told
      ensures Valid() && (client.fd >= 0 ==> client.fd == old(client.fd))
      ensures client.fd >= 0 ==> session.started && session.sessionId == request.sessionId && !session.Finished()
      ensures client.fd >= 0 && (request.stdin || !request.tty) ==> ServedFrom(request.outOffset, request.errOffset)
      ensures !session.started || session.sessionId != request.sessionId ==> client.line == 0 || LastTold(client.past, 2)
      ensures client.fd >= 0 ==> client.stdinOwner == old(client.stdinOwner) && client.terminalOwner == old(client.terminalOwner) && client.stdinOffset == old(client.stdinOffset) && client.terminalInputOffset == old(client.terminalInputOffset)
      ensures client.fd >= 0 && request.stdin ==> session.stdinOpen
      ensures old(client.stdoutOffset) == request.outOffset && old(client.stderrOffset) == request.errOffset && client.fd < 0 && client.line != 0 ==>
                client.past != [] && InPlace(client.past[|client.past| - 1], request.outOffset, request.errOffset)
      ensures session.started && session.sessionId == request.sessionId && !ready ==> client.fd < 0 && (client.line == 0 || LastTold(client.past, 126))
      ensures session.started && session.sessionId == request.sessionId && ready ==>
                if Barred(request, old(session.stdinOpen)) then client.fd < 0 && (client.line == 0 || LastTold(client.past, 2))
                else if request.tty && !request.stdin then
                  if session.exited && !session.stdout.isOpen then client.fd < 0 && (client.line == 0 || LastTold(client.past, session.exitCode)) else client.fd >= 0
                else
                  && (Available(request) && !session.Finished() ==> client.fd >= 0 || client.line == 0)
                  && (client.fd < 0 ==> client.line == 0 || LastTold(client.past, if Available(request) then session.exitCode else 125))
    {
      hide AllProper, Remembers, UpToDate, Parsing, StdinInOrder, AllTrack, Session.OutputsValid, Session.ControlValid, Client.Valid, Follows, LastTold, Base, MountTable.Valid, MountTable.Accounted, InPlace, AtOffsets, MountsAccounted, WithOp;
      NobodyAtOffsets(client.stdoutOffset, client.stderrOffset);
      if !session.started || request.sessionId != session.sessionId {
        session.Refuse(client, 2);
        return;
      }
      if !ready {
        session.Refuse(client, 126);
        return;
      }
      if request.stdin {
        if !session.stdinCapable || !session.stdinOpen {
          session.Refuse(client, 2);
          return;
        }
      } else if request.tty {
        if !session.tty || (request.interactive && !session.stdout.isOpen) {
          session.Refuse(client, 2);
          return;
        }
        session.TerminalIsOne();
        if session.exited && !session.stdout.isOpen {
          StandsInPlace(client.conn, client.stdoutOffset, client.stderrOffset, client.stdoutOffset, client.stderrOffset);
          FarewellInPlace(client.conn, session.exitCode, client.line, client.stdoutOffset, client.stderrOffset);
          session.SayGoodbye(client);
        }
        return;
      }
      var ok := session.Attach(client, request.outOffset, request.errOffset);
    }

    /** `accept_request`. */
    method AcceptRequest(arrival: Arrival)
      requires Valid() && op.NoOp? && Vetted(arrival) && TargetDirectories.Root(mounts.rootfs, mounts.nextId)
      modifies this, mounts, client, client.memory, opSession, opSession.stdout, opSession.stderr, opSession.stdout.replay, opSession.stderr.replay
      modifies session, session.stdout, session.stderr, session.stdout.replay, session.stderr.replay
      ensures Valid() && (old(poisoned) ==> poisoned)
      ensures !arrival.Asks? ==> op.NoOp? && unchanged(client, session)
      ensures arrival.Asks? && client.fd >= 0 ==> client.fd != old(client.fd)
      ensures arrival.Asks? && old(poisoned) ==> client.fd < 0 && op.NoOp? && (client.line == 0 || LastTold(client.past, 125))
      ensures session.serial == old(session.serial) ==> session.ShapeNow() == old(session.ShapeNow())
      ensures !(arrival.Asks? && arrival.request.Start?) || old(session.started && !session.Finished()) ==> session.serial == old(session.serial)
      ensures arrival.Asks? && client.fd >= 0 ==> !arrival.request.OneShot? && (op.BuildRun? <==> arrival.request.Build?)
      ensures arrival.Asks? && client.fd >= 0 ==> InputSession().sessionId == arrival.request.sessionId
      ensures arrival.Asks? && client.fd >= 0 && (!op.NoOp? || session.serial != old(session.serial)) ==>
                InputSession().tty == (op.NoOp? && arrival.request.Start? && arrival.request.tty)
      ensures arrival.Asks? && client.fd >= 0 ==> InputFits(arrival.request, !op.NoOp? || session.serial != old(session.serial))
      ensures arrival.Asks? && arrival.request.Attach? && client.fd < 0 && client.line != 0 ==>
                client.past != [] && InPlace(client.past[|client.past| - 1], arrival.request.outOffset, arrival.request.errOffset)
      ensures arrival.Asks? && arrival.request.Start? && !old(poisoned) && !old(session.started && session.sessionId == arrival.request.sessionId) ==>
                (client.fd >= 0 <==> arrival.ready && arrival.starts && (old(session.started && !session.Finished()) ==> !arrival.request.tty && !arrival.request.pressure))
      ensures op.BuildRun? ==> arrival.Asks? && arrival.request.Build?
      ensures arrival.Asks? && !old(poisoned) ==>
                Fares(arrival.request, arrival.ready, arrival.streamed, arrival.starts, old(session.started && !arrival.request.OneShot? && session.sessionId == arrival.request.sessionId), old(session.started && !session.Finished()), old(session.stdinOpen))
    {
      hide AllProper, Remembers, UpToDate, Parsing, StdinInOrder, AllTrack, Session.OutputsValid, Session.ControlValid, Client.Valid, Follows, LastTold, Session.Linked, MountTable.Valid, MountTable.Accounted, InPlace, AtOffsets, Idle, WithOp, Session.Acceptable, InputFits, Owns, OwnsTerminal, Fares;
      match arrival {
        case Nobody =>
        case Unread =>
        case Malformed =>
          ghost var answered, left;
          answered, left := Reject();
        case Asks(request, ready, streamed, starts) =>
          Replace(request);
          if poisoned {
            Refuse(125);
            return;
          }
          Serve(request, ready, streamed, starts);
      }
    }

    /** How a request fares, given whether the session was started under its name, whether
        it was still going, and whether its standard input was open. A client that
        stays has what it asked for; one that does not is told the code of its cause. */
    ghost predicate Fares(request: Request, ready: bool, streamed: bool, starts: bool, same: bool, going: bool, stdinOpen: bool)
      reads this, session, session.stdout, session.stderr, client
    {
      if client.fd >= 0 then
        && ready
        && (request.Build? ==> streamed && starts)
        && (request.Start? && !same ==> starts && (going ==> !request.tty && !request.pressure))
        && (request.Attach? ==> same && !Barred(request, stdinOpen) && !session.Finished())
      else
        client.line == 0 ||
        match request
        case OneShot => true
        case Build(_, _, _) =>
          if poisoned then LastTold(client.past, 125)
          else if !ready then LastTold(client.past, 126)
          else if !streamed then LastTold(client.past, 2)
          else LastTold(client.past, 126) || (!starts && LastTold(client.past, 127))
        case Start(_, _, _, _, tty, pressure) =>
          if !ready then LastTold(client.past, 126)
          else if same then LastTold(client.past, if Available(request) then session.exitCode else 125) && (Available(request) ==> session.Finished())
          else LastTold(client.past, if going && (tty || pressure) then 2 else 127) && (starts ==> going && (tty || pressure))
        case Attach(_, _, _, stdin, tty, _) =>
          if !same then LastTold(client.past, 2)
          else if !ready then LastTold(client.past, 126)
          else if Barred(request, stdinOpen) then LastTold(client.past, 2)
          else if tty && !stdin then session.exited && !session.stdout.isOpen && LastTold(client.past, session.exitCode)
          else LastTold(client.past, if Available(request) then session.exitCode else 125) && (Available(request) ==> session.Finished())
    }

    /** What is done for a request, once its connection is the client. */
    method Serve(request: Request, ready: bool, streamed: bool, starts: bool)
      requires Greeting() && !poisoned && (request.Build? ==> Mountable(request.caches, request.binds)) && TargetDirectories.Root(mounts.rootfs, mounts.nextId)
      requires client.stdinOwner == Owns(request) && client.terminalOwner == OwnsTerminal(request) && client.stdinOffset == 0 && client.terminalInputOffset == 0
      requires request.Attach? ==> client.stdoutOffset == request.outOffset && client.stderrOffset == request.errOffset
      modifies this, mounts, client, client.memory, opSession, opSession.stdout, opSession.stderr, opSession.stdout.replay, opSession.stderr.replay
      modifies session, session.stdout, session.stderr, session.stdout.replay, session.stderr.replay
      ensures Valid() && (client.fd >= 0 ==> client.fd == old(client.fd))
      ensures session.serial == old(session.serial) ==> session.ShapeNow() == old(session.ShapeNow())
      ensures !request.Start? || old(session.started && !session.Finished()) ==> session.serial == old(session.serial)
      ensures client.fd >= 0 ==> !request.OneShot? && (op.BuildRun? <==> request.Build?) && InputSession().sessionId == request.sessionId
      ensures client.fd >= 0 && (!op.NoOp? || session.serial != old(session.serial)) ==> InputSession().tty == (op.NoOp? && request.Start? && request.tty)
      ensures client.fd >= 0 ==> InputFits(request, !op.NoOp? || session.serial != old(session.serial))
      ensures request.Attach? && client.fd < 0 && client.line != 0 ==>
                client.past != [] && InPlace(client.past[|client.past| - 1], request.outOffset, request.errOffset)
      ensures request.Start? && !old(session.started && session.sessionId == request.sessionId) ==>
                (client.fd >= 0 <==> ready && starts && (old(session.started && !session.Finished()) ==> !request.tty && !request.pressure))
      ensures op.BuildRun? ==> request.Build?
      ensures Fares(request, ready, streamed, starts, old(session.started && !request.OneShot? && session.sessionId == request.sessionId), old(session.started && !session.Finished()), old(session.stdinOpen))
    {
      hide AllProper, Remembers, UpToDate, Parsing, StdinInOrder, AllTrack, Session.OutputsValid, Session.ControlValid, Client.Valid, Follows, LastTold, Session.Linked, MountTable.Valid, MountTable.Accounted, InPlace, AtOffsets, Idle, WithOp, Session.Acceptable, InputFits, Owns, OwnsTerminal;
      match request {
        case OneShot => AnswerOnce();
        case Build(_, _, _) => StartBuild(request, ready, streamed, starts);
        case Start(_, _, _, _, _, _) => StartSession(request, ready, starts);
        case Attach(_, _, _, _, _, _) => AttachSession(request, ready);
      }
      if client.fd >= 0 {
        FirstInput(request, !op.NoOp? || session.serial != old(session.serial));
      }
    }

    /** The client owns the input that its request says it does. When its command
        has just been started, input at the beginning is acceptable exactly if
        the request has it; a RUN step takes none; an attached client finds
        standard input open; and a terminal's input is acceptable while it is open. */
    ghost predicate InputFits(request: Request, started: bool)
      reads this, Parts()
    {
      && client.stdinOwner == Owns(request) && client.terminalOwner == OwnsTerminal(request)
      && (request.Start? && started ==>
            forall f: Frame :: f.kind == DATA && f.stream == STDIN_STREAM && f.offset == 0 ==> (InputSession().Acceptable(client, f) <==> request.stdin))
      && (request.Build? ==> forall f: Frame :: f.stream == STDIN_STREAM ==> !InputSession().Acceptable(client, f))
      && (request.Attach? && request.stdin ==> session.stdinOpen && client.stdinOffset == 0)
      && (forall f: Frame :: f.kind == DATA && f.stream == TERMINAL_STREAM && f.offset == 0 ==>
            (InputSession().Acceptable(client, f) <==> OwnsTerminal(request) && InputSession().tty && InputSession().stdout.isOpen))
    }

    lemma FirstInput(request: Request, started: bool)
      requires client.stdinOwner == Owns(request) && client.terminalOwner == OwnsTerminal(request)
      requires client.stdinOffset == 0 && client.terminalInputOffset == 0
      requires request.Start? && started ==> InputSession().stdinOpen == request.stdin && InputSession().pending == []
      requires request.Attach? && request.stdin ==> session.stdinOpen
      ensures InputFits(request, started)
    {
    }

    /** A request that does not parse keeps the client and answers only its own connection. */
    method Reject() returns (ghost answered: Conn, ghost left: nat)
      ensures (left == 0 || Told(answered, 2)) && InPlace(answered, 0, 0)
    {
      var fd := FreshDescriptor(-1);
      var rejected := new Client();
      rejected.Connect(fd, 0, 0, false, false);
      var message: seq<byte> := *;
      RefusedIsProper(NOBODY, 0, message, 2, rejected.line);
      NobodyAtOffsets(0, 0);
      RefusedInPlace(NOBODY, 0, 0, message, 2, rejected.line);
      var ok := rejected.SendErrorExit(2, message);
      answered, left := rejected.conn, rejected.line;
      rejected.Close();
    }

    /** The new connection takes the client's place. Its descriptor is not the old
        one's, which is still open when the kernel hands out the new one. */
    method Replace(request: Request)
      requires Valid() && op.NoOp?
      modifies client
      ensures Greeting() && client.fd != old(client.fd)
      ensures client.past == if old(client.fd) >= 0 then old(client.past) + [old(client.conn)] else old(client.past)
      ensures client.stdinOwner == Owns(request) && client.terminalOwner == OwnsTerminal(request) && client.stdinOffset == 0 && client.terminalInputOffset == 0
      ensures client.stdoutOffset == (if request.Attach? then request.outOffset else 0) && client.stderrOffset == if request.Attach? then request.errOffset else 0
    {
      hide AllProper, Remembers, UpToDate, Parsing, StdinInOrder, AllTrack, Session.OutputsValid, Session.ControlValid, Client.Valid, Follows, MountTable.Valid, MountTable.Accounted;
      var before := client.fd;
      session.Drop(client);
      var fd := FreshDescriptor(before);
      client.Connect(
        fd,
        if request.Attach? then request.outOffset else 0,
        if request.Attach? then request.errOffset else 0,
        (request.Start? || request.Attach?) && request.stdin,
        (request.Start? && request.tty) || (request.Attach? && request.tty && request.interactive));
    }

    // ---- The loop ----

    /** What poll found for the session and the exec op's streams. */
    method PumpReady(p: Poll, hadOp: bool)
      requires Valid() && (hadOp ==> !op.NoOp?)
      modifies session`stdinOpen, session`pending, session`pendingOff, session`closePending, session`stdin, client, noClient
      modifies session.stdout, session.stderr, session.stdout.replay, session.stderr.replay, session.stdout.replay.data, session.stderr.replay.data
      modifies opSession`stdinOpen, opSession`pending, opSession`pendingOff, opSession`closePending, opSession`stdin
      modifies opSession.stdout, opSession.stderr, opSession.stdout.replay, opSession.stderr.replay, opSession.stdout.replay.data, opSession.stderr.replay.data
      ensures Valid() && (client.fd == old(client.fd) || (client.fd < 0 && client.line == 0))
      ensures old(client.fd) < 0 ==> client.fd == old(client.fd) && client.past == old(client.past) && client.line == old(client.line)
      ensures session.ShapeNow() == AfterRead(AfterRead(old(session.ShapeNow()), true, p.out), false, p.err)
      ensures opSession.ShapeNow() ==
              if hadOp then AfterRead(AfterRead(old(opSession.ShapeNow()), true, p.opOut), false, p.opErr) else old(opSession.ShapeNow())
      ensures session.stdin.accepted == old(session.stdin).accepted && opSession.stdin.accepted == old(opSession.stdin).accepted
      ensures !hadOp ==> opSession.stdin == old(opSession.stdin) && opSession.pending == old(opSession.pending) && opSession.pendingOff == old(opSession.pendingOff)
      ensures client.fd >= 0 ==>
                Notices(client.conn.log) == old(Notices(client.conn.log)) + if p.pressure && op.NoOp? && session.started && !session.exited then 1 else 0
    {
      hide *;
      PartsAreApart();
      PumpSessionReady(p);
      Drain(false);
      if hadOp {
        PumpOpReady(p);
      }
    }

    /** The session's own pipes, and word of memory pressure. */
    method PumpSessionReady(p: Poll)
      requires Valid()
      modifies session`stdinOpen, session`pending, session`pendingOff, session`closePending, session`stdin, client, noClient
      modifies session.stdout, session.stderr, session.stdout.replay, session.stderr.replay, session.stdout.replay.data, session.stderr.replay.data
      ensures Valid() && session.ShapeNow() == AfterRead(AfterRead(old(session.ShapeNow()), true, p.out), false, p.err)
      ensures client.fd == old(client.fd) || (client.fd < 0 && client.line == 0)
      ensures old(client.fd) < 0 ==> client.fd == old(client.fd) && client.past == old(client.past) && client.line == old(client.line)
      ensures session.stdin.accepted == old(session.stdin).accepted
      ensures client.fd >= 0 ==>
                Notices(client.conn.log) == old(Notices(client.conn.log)) + if p.pressure && op.NoOp? && session.started && !session.exited then 1 else 0
    {
      hide Valid, Took, Notices;
      if p.out.Read? {
        PumpSession(true, p.out.pieces, p.out.ended);
      }
      if p.err.Read? {
        PumpSession(false, p.err.pieces, p.err.ended);
      }
      if p.pressure {
        TellPressure();
      }
    }

    lemma PartsAreApart()
      requires Valid()
      ensures Apart()
      ensures session != opSession && client != noClient
      ensures session.stdout != opSession.stdout && session.stdout != opSession.stderr
      ensures session.stderr != opSession.stdout && session.stderr != opSession.stderr
    {
    }

    method PumpOpReady(p: Poll)
      requires Valid() && !op.NoOp?
      modifies session`stdinOpen, session`pending, session`pendingOff, session`closePending, session`stdin
      modifies opSession`stdinOpen, opSession`pending, opSession`pendingOff, opSession`closePending, opSession`stdin, client
      modifies opSession.stdout, opSession.stderr, opSession.stdout.replay, opSession.stderr.replay, opSession.stdout.replay.data, opSession.stderr.replay.data
      ensures Valid() && opSession.ShapeNow() == AfterRead(AfterRead(old(opSession.ShapeNow()), true, p.opOut), false, p.opErr)
      ensures client.fd == old(client.fd) || (client.fd < 0 && client.line == 0)
      ensures old(client.fd) < 0 ==> client.fd == old(client.fd) && client.past == old(client.past) && client.line == old(client.line)
      ensures session.stdin.accepted == old(session.stdin).accepted && opSession.stdin.accepted == old(opSession.stdin).accepted
      ensures session.stdin == old(session.stdin) && session.pending == old(session.pending) && session.pendingOff == old(session.pendingOff)
      ensures client.fd >= 0 ==> Notices(client.conn.log) == old(Notices(client.conn.log))
    {
      hide Valid, Took, Notices, Apart, Session.ShapeNow;
      PartsAreApart();
      if p.opOut.Read? {
        PumpOp(true, p.opOut.pieces, p.opOut.ended);
      }
      if p.opErr.Read? {
        PumpOp(false, p.opErr.pieces, p.opErr.ended);
      }
      Drain(true);
    }

    /** How an exec op ends for a client that was there: it has its status, it
        takes no more, or the agent is poisoned and says so. */
    ghost predicate OpOverFor(status: ChildStatus)
      reads this, client
    {
      client.line == 0 || (status.Ended? && LastTold(client.past, if poisoned then 125 else status.code))
    }

    /** Looking after the exec op, and finishing it when it or its client is done. */
    method StepOp(p: Poll) returns (halted: bool)
      requires Valid() && !op.NoOp?
      modifies this, mounts, client, client.memory
      modifies opSession, opSession.stdout, opSession.stderr, opSession.stdout.replay, opSession.stderr.replay, opSession.stdout.replay.data, opSession.stderr.replay.data
      ensures !halted ==> Valid() && (op == old(op) || op.NoOp?) && (old(poisoned) ==> poisoned)
      ensures !halted && !op.NoOp? ==>
                && client.fd == old(client.fd) >= 0 && p.opStatus.Alive? && opSession.serial == old(opSession.serial)
                && opSession.ShapeNow() == Waited(old(opSession.ShapeNow()), p.opStatus, p.opLastOut, p.opLastErr)
      ensures !halted && op.NoOp? ==> client.fd < 0 && (old(client.fd) >= 0 ==> OpOverFor(p.opStatus))
      ensures !halted && old(client.fd) < 0 ==> op.NoOp? && client.line == old(client.line)
      ensures !halted && !op.NoOp? ==> opSession.stdin.accepted == old(opSession.stdin).accepted
      ensures halted ==> old(op).BuildRun? && !p.killed
      ensures old(op).BuildRun? && !old(descendantsCleaned) && !p.killed && (p.opStatus.Ended? || old(client.fd) < 0) ==> halted
    {
      hide Sound, WithOp, LastTold, Waited;
      halted := false;
      ghost var wasRun := op.BuildRun?;
      if op.Transient? {
        NothingRecorded();
        StepTransient(p.opStatus, p.opLastOut, p.opLastErr);
      } else {
        halted := StepBuildExec(p.opStatus, p.opLastOut, p.opLastErr, p.killed);
        if halted {
          return;
        }
      }
      if client.fd >= 0 && !opSession.Finished() {
        StillGoing();
        return;
      }
      halted := FinishOp(p.killed);
    }

    lemma NothingRecorded()
      requires Valid() && op.Transient?
      ensures !mounts.Recorded()
    {
      hide Session.OutputsValid, Session.ControlValid, Session.Linked;
    }

    lemma StillGoing()
      requires Stepped() && client.fd >= 0 && !opSession.Finished()
      ensures Valid()
    {
      hide Session.OutputsValid, Session.Linked, Fifo;
    }

    /** `poll_agent`: one pass of the event loop. The listener is looked at only
        when no exec op is in progress, so no request can displace one. The
        session takes what its pipes had and notices its child's end, whoever is
        connected. A client that takes what it is sent, does not hang up and sends
        nothing that offends stays connected until it is told an exit status. What the client sends for
        standard input is accepted frame by frame, a hangup ends its connection,
        and a new request takes its place. */
    method PollAgent(p: Poll) returns (halted: bool, ghost fs: seq<Frame>, ghost taken: seq<byte>)
      requires Valid() && Plausible(p)
      modifies this, Parts()
      ensures !halted ==> Valid() && (old(poisoned) ==> poisoned)
      ensures !halted && session.serial == old(session.serial) ==>
                session.ShapeNow() == PolledOnce(old(session.ShapeNow()), p.out, p.err, p.status, p.lastOut, p.lastErr)
      ensures !halted && !old(op).NoOp? ==> session.serial == old(session.serial) && (op == old(op) || op.NoOp?)
      ensures !halted && !old(op).NoOp? && !op.NoOp? ==>
                && client.fd == old(client.fd) && p.opStatus.Alive? && opSession.serial == old(opSession.serial)
                && opSession.ShapeNow() == PolledOnce(old(opSession.ShapeNow()), p.opOut, p.opErr, p.opStatus, p.opLastOut, p.opLastErr)
      ensures !halted && !old(op).NoOp? && op.NoOp? ==>
                client.fd < 0 && (old(client.fd) >= 0 ==> OpOverFor(p.opStatus) || Leaves(p, old(client.input), taken, fs))
      ensures !halted && old(op).NoOp? && !p.arrival.Asks? ==>
                && op.NoOp? && session.serial == old(session.serial)
                && (client.fd == old(client.fd) ||
                    (client.fd < 0 && (client.line == 0 || (session.Finished() && LastTold(client.past, session.exitCode)) || Leaves(p, old(client.input), taken, fs))))
      ensures !halted && old(poisoned) && old(op).NoOp? && p.arrival.Asks? ==> client.fd < 0 && op.NoOp?
      ensures !halted && old(client.fd) >= 0 && (!old(op).NoOp? || !p.arrival.Asks?) && p.hangup ==> client.fd < 0
      ensures !halted && old(op).NoOp? && p.arrival.Asks? ==> client.fd < 0 || client.fd != old(client.fd)
      ensures var heard := old(client.fd) >= 0 && (!old(op).NoOp? || !p.arrival.Asks?) && p.readable && !old(op).BuildRun? && old(InputSession().pending) == [];
              heard ==> taken <= p.incoming && (p.incoming != [] ==> taken != []) && (!halted && p.lost && p.incoming == [] ==> client.fd < 0)
                        && (!halted && client.fd >= 0 ==> Decode(old(client.input).received + taken).frames == old(client.input).handled + fs)
      ensures !halted && old(op).NoOp? && !p.arrival.Asks? ==> session.stdin.accepted == old(session.stdin).accepted + Delivered(fs, STDIN_STREAM)
      ensures !halted && old(op).Transient? && !op.NoOp? ==> opSession.stdin.accepted == old(opSession.stdin).accepted + Delivered(fs, STDIN_STREAM)
      ensures halted ==> !p.killed && (old(op).BuildRun? || (p.arrival.Asks? && p.arrival.request.Build?))
    {
      hide Valid, Waited, LastTold, AfterRead, Plausible, Apart, Session.ShapeNow, Decode, Delivered, Leaves;
      PartsAreApart();
      halted := false;
      fs, taken := PollSession(p);
      if op.NoOp? {
        return;
      }
      halted := StepOp(p);
    }

    /** All of it but the exec op's own progress. */
    method PollSession(p: Poll) returns (ghost fs: seq<Frame>, ghost taken: seq<byte>)
      requires Valid() && Plausible(p)
      modifies this, Parts()
      ensures Valid() && (old(poisoned) ==> poisoned)
      ensures session.serial == old(session.serial) ==>
                session.ShapeNow() == PolledOnce(old(session.ShapeNow()), p.out, p.err, p.status, p.lastOut, p.lastErr)
      ensures !old(op).NoOp? ==>
                && op == old(op) && session.serial == old(session.serial) && opSession.serial == old(opSession.serial)
                && opSession.ShapeNow() == AfterRead(AfterRead(old(opSession.ShapeNow()), true, p.opOut), false, p.opErr)
                && (client.fd == old(client.fd) || client.fd < 0)
                && (old(client.fd) >= 0 && client.fd < 0 ==> client.line == 0 || Leaves(p, old(client.input), taken, fs))
      ensures old(op).NoOp? && !p.arrival.Asks? ==>
                && op.NoOp? && session.serial == old(session.serial)
                && (client.fd == old(client.fd) ||
                    (client.fd < 0 && (client.line == 0 || (session.Finished() && LastTold(client.past, session.exitCode)) || Leaves(p, old(client.input), taken, fs))))
      ensures old(poisoned) && old(op).NoOp? && p.arrival.Asks? ==> client.fd < 0 && op.NoOp?
      ensures old(client.fd) >= 0 && (!old(op).NoOp? || !p.arrival.Asks?) && p.hangup ==> client.fd < 0
      ensures old(op).NoOp? && p.arrival.Asks? ==> client.fd < 0 || client.fd != old(client.fd)
      ensures var heard := old(client.fd) >= 0 && (!old(op).NoOp? || !p.arrival.Asks?) && p.readable && !old(op).BuildRun? && old(InputSession().pending) == [];
              heard ==> taken <= p.incoming && (p.incoming != [] ==> taken != []) && (p.lost && p.incoming == [] ==> client.fd < 0)
                        && (client.fd >= 0 ==> Decode(old(client.input).received + taken).frames == old(client.input).handled + fs)
      ensures !old(op).NoOp? || !p.arrival.Asks? ==> InputSession().stdin.accepted == old(InputSession().stdin).accepted + Delivered(fs, STDIN_STREAM)
      ensures old(op).NoOp? && !p.arrival.Asks? ==> op.NoOp?
      ensures old(op).NoOp? && op.BuildRun? ==> p.arrival.Asks? && p.arrival.request.Build?
    {
      hide Valid, Waited, LastTold, AfterRead, PolledOnce, Plausible, Apart, Session.Finished, Session.ShapeNow, Decode, Delivered, Leaves;
      PartsAreApart();
      var hadOp := !op.NoOp?;
      var polled;
      polled, fs, taken := Events(p);
      Progress(p, hadOp);
    }

    /** What the streams, the pipes and the session's child have for the agent. */
    method Progress(p: Poll, hadOp: bool)
      requires Valid() && (hadOp ==> !op.NoOp?)
      modifies session`stdinOpen, session`pending, session`pendingOff, session`closePending, session`stdin, session`exited, session`exitCode, session`told, client, noClient
      modifies session.stdout, session.stderr, session.stdout.replay, session.stderr.replay, session.stdout.replay.data, session.stderr.replay.data
      modifies opSession`stdinOpen, opSession`pending, opSession`pendingOff, opSession`closePending, opSession`stdin
      modifies opSession.stdout, opSession.stderr, opSession.stdout.replay, opSession.stderr.replay, opSession.stdout.replay.data, opSession.stderr.replay.data
      ensures Valid() && session.ShapeNow() == PolledOnce(old(session.ShapeNow()), p.out, p.err, p.status, p.lastOut, p.lastErr)
      ensures opSession.ShapeNow() ==
              if hadOp then AfterRead(AfterRead(old(opSession.ShapeNow()), true, p.opOut), false, p.opErr) else old(opSession.ShapeNow())
      ensures client.fd == old(client.fd) ||
              (client.fd < 0 && (client.line == 0 || (op.NoOp? && session.Finished() && LastTold(client.past, session.exitCode))))
      ensures old(client.fd) < 0 ==> client.fd == old(client.fd) && client.past == old(client.past) && client.line == old(client.line)
      ensures session.stdin.accepted == old(session.stdin).accepted && opSession.stdin.accepted == old(opSession.stdin).accepted
    {
      hide *;
      PartsAreApart();
      ghost var s := session.ShapeNow();
      PolledIs(s, p.out, p.err, p.status, p.lastOut, p.lastErr);
      PumpReady(p, hadOp);
      SettleSession(p);
    }

    /** What is done for the session on every pass, whatever poll found. */
    method SettleSession(p: Poll)
      requires Valid()
      modifies session`stdinOpen, session`pending, session`pendingOff, session`closePending, session`stdin, session`exited, session`exitCode, session`told, client, noClient
      modifies session.stdout, session.stderr, session.stdout.replay, session.stderr.replay, session.stdout.replay.data, session.stderr.replay.data
      modifies opSession`stdinOpen, opSession`pending, opSession`pendingOff, opSession`closePending, opSession`stdin
      ensures Valid() && session.ShapeNow() == Waited(old(session.ShapeNow()), p.status, p.lastOut, p.lastErr)
      ensures client.fd == old(client.fd) || (client.fd < 0 && (client.line == 0 || (session.Finished() && LastTold(client.past, session.exitCode))))
      ensures !op.NoOp? || old(client.fd) < 0 ==> client.fd == old(client.fd) && client.past == old(client.past) && client.line == old(client.line)
      ensures session.stdin.accepted == old(session.stdin).accepted && opSession.stdin.accepted == old(opSession.stdin).accepted
      ensures opSession.stdin == old(opSession.stdin) && opSession.pending == old(opSession.pending) && opSession.pendingOff == old(opSession.pendingOff)
    {
      hide *;
      PartsAreApart();
      Drain(false);
      SessionExit(p.status, p.lastOut, p.lastErr);
    }

    /** A new connection, unless an exec op is in progress, and then what the
        connection that was polled has to say, if it is still the client's. */
    method Events(p: Poll) returns (polled: int, ghost fs: seq<Frame>, ghost taken: seq<byte>)
      requires Valid() && Plausible(p)
      modifies this, mounts, client, client.memory, opSession, opSession.stdout, opSession.stderr, opSession.stdout.replay, opSession.stderr.replay
      modifies session, session.stdout, session.stderr, session.stdout.replay, session.stderr.replay
      ensures Valid() && (old(poisoned) ==> poisoned) && polled == old(client.fd)
      ensures session.serial == old(session.serial) ==> session.ShapeNow() == old(session.ShapeNow())
      ensures !old(op).NoOp? ==>
                && op == old(op) && opSession.serial == old(opSession.serial) && opSession.ShapeNow() == old(opSession.ShapeNow())
                && session.serial == old(session.serial) && (client.fd == old(client.fd) || client.fd < 0)
      ensures old(op).NoOp? && !p.arrival.Asks? ==> op.NoOp? && session.serial == old(session.serial)
      ensures (!old(op).NoOp? || !p.arrival.Asks?) && !p.readable && !p.hangup ==> client.fd == old(client.fd) && client.past == old(client.past) && client.line == old(client.line)
      ensures old(op).NoOp? && old(poisoned) && p.arrival.Asks? ==> client.fd < 0 && op.NoOp?
      ensures old(client.fd) >= 0 && (!old(op).NoOp? || !p.arrival.Asks?) && p.hangup ==> client.fd < 0
      ensures !old(op).NoOp? || !p.arrival.Asks? ==> client.fd == old(client.fd) || (client.fd < 0 && Leaves(p, old(client.input), taken, fs))
      ensures old(op).NoOp? && p.arrival.Asks? ==> client.fd < 0 || client.fd != old(client.fd)
      ensures var heard := old(client.fd) >= 0 && (!old(op).NoOp? || !p.arrival.Asks?) && p.readable && !old(op).BuildRun? && old(InputSession().pending) == [];
              heard ==> taken <= p.incoming && (p.incoming != [] ==> taken != []) && (p.lost && p.incoming == [] ==> client.fd < 0)
                        && (client.fd >= 0 ==> Decode(old(client.input).received + taken).frames == old(client.input).handled + fs)
      ensures !old(op).NoOp? || !p.arrival.Asks? ==> InputSession().stdin.accepted == old(InputSession().stdin).accepted + Delivered(fs, STDIN_STREAM)
      ensures old(op).NoOp? && op.BuildRun? ==> p.arrival.Asks? && p.arrival.request.Build?
    {
      hide Valid, LastTold, Session.Finished, Session.ShapeNow, TargetDirectories.Root, Offends, InputEnded, Decode, Delivered;
      polled, fs, taken := client.fd, [], [];
      NothingDelivered();
      FindRoot(p);
      if op.NoOp? {
        AcceptRequest(p.arrival);
      }
      if polled >= 0 {
        ghost var gone;
        fs, taken, gone := ClientEvent(polled, p.incoming, p.lost, p.readable, p.hangup);
      }
    }

    /** The root file system is as the poll finds it. */
    method FindRoot(p: Poll)
      requires Valid() && Plausible(p)
      modifies mounts`rootfs, mounts`nextId
      ensures Valid() && mounts.rootfs == p.rootfs && mounts.nextId == p.nextId
    {
      hide Session.OutputsValid, Session.ControlValid, Session.Linked, MountTable.Valid;
      mounts.Find(p.rootfs, p.nextId);
    }

    /** The agent runs until it halts, whatever each poll brings. */
    method Run(polls: seq<Poll>) returns (halted: bool)
      requires Valid() && forall i :: 0 <= i < |polls| ==> Plausible(polls[i])
      modifies this, Parts()
      ensures !halted ==> Valid() && (old(poisoned) ==> poisoned)
      ensures !halted && client.fd >= 0 ==> !op.NoOp? || (session.started && !session.Finished())
      ensures !halted && op.NoOp? && !poisoned ==> mounts.up == {}
      ensures !halted && op.NoOp? ==> !descendants && !child
    {
      hide Valid, Took, Waited, LastTold, AfterRead, PolledOnce, Plausible;
      halted := false;
      BetweenPolls();
      for i := 0 to |polls|
        invariant !halted && Valid() && (old(poisoned) ==> poisoned)
        invariant client.fd >= 0 ==> !op.NoOp? || (session.started && !session.Finished())
        invariant op.NoOp? && !poisoned ==> mounts.up == {}
        invariant op.NoOp? ==> !descendants && !child
      {
        ghost var fs, taken;
        halted, fs, taken := PollAgent(polls[i]);
        if halted {
          return;
        }
        BetweenPolls();
      }
    }

    /** Between polls an open connection has business with the agent, no process of
        an exec op has outlived it, and without an exec op and without poison no
        mount of a RUN step is up. */
    lemma BetweenPolls()
      requires Valid()
      ensures client.fd >= 0 ==> !op.NoOp? || (session.started && !session.Finished())
      ensures op.NoOp? && !poisoned ==> mounts.up == {}
      ensures op.NoOp? ==> !descendants && !child
    {
    }

    // ---- What every run delivers ----

    ghost function StreamOf(id: nat): seq<byte>
      reads session.stdout, session.stderr
    {
      if id == STDOUT_STREAM then session.stdout.stream else session.stderr.stream
    }

    /** A connection the session has served, past or present. */
    ghost predicate Served(c: Conn)
      reads this, client, session
    {
      c.served && c.session == session.serial && (c in client.past || (op.NoOp? && client.fd >= 0 && c == client.conn))
    }

    /** Whatever has happened so far, what a served connection has been sent of a
        stream is a contiguous slice of it from the offset it asked for. */
    lemma ServedSlices(c: Conn, id: nat)
      requires Valid() && Served(c) && (id == STDOUT_STREAM || id == STDERR_STREAM)
      ensures Slices(c.log, id, From(c, id), StreamOf(id)) && ExitLast(c.log)
    {
      hide Session.OutputsValid, Session.ControlValid, Slices, Whole, Parsing, StdinInOrder, NoExit, ExitLast;
      if c in client.past {
        var i :| 0 <= i < |client.past| && client.past[i] == c;
        assert Proper(c);
        PastTracked();
        assert Tracks(c, session.serial, session.StoryNow());
      } else {
        UpToDateIsProper(c);
      }
      SlicesGrow(c.log, id, From(c, id), if id == STDOUT_STREAM then c.out else c.err, StreamOf(id));
    }

    lemma PastTracked()
      requires Valid()
      ensures AllTrack(client.past, session.serial, session.StoryNow())
    {
      hide Session.OutputsValid, Session.ControlValid, AllTrack, AllProper, UpToDate, Parsing, StdinInOrder, Follows;
      if !op.NoOp? {
        var keep := client.memory.keep;
        TracksMore(client.past, keep.serial, keep.story, session.StoryNow());
      }
    }

    /** Connections that each resume where the one before stopped together get the
        stream from the first offset on, with no gap and no repeat. */
    lemma ResumableOutput(cs: seq<Conn>, id: nat)
      requires Valid() && cs != [] && (id == STDOUT_STREAM || id == STDERR_STREAM) && Resumes(cs, id)
      requires forall i :: 0 <= i < |cs| ==> Served(cs[i])
      ensures From(cs[0], id) <= End(cs[|cs| - 1], id) <= |StreamOf(id)|
      ensures AllDelivered(cs, id) == StreamOf(id)[From(cs[0], id)..End(cs[|cs| - 1], id)]
    {
      hide Valid, Served, Slices;
      forall i | 0 <= i < |cs| ensures Slices(cs[i].log, id, From(cs[i], id), StreamOf(id)) {
        ServedSlices(cs[i], id);
      }
      ChainIsStream(cs, id, StreamOf(id));
    }

    /** A client of the session has, while it stays connected, all of the output
        since the offset it asked for. */
    lemma ConnectedIsUpToDate()
      requires Valid() && op.NoOp? && client.fd >= 0 && client.conn.served
      ensures client.stdoutOffset == |session.stdout.stream| && client.stderrOffset == |session.stderr.stream|
      ensures Delivered(client.conn.log, STDOUT_STREAM) == session.stdout.stream[client.conn.fromOut..]
      ensures Delivered(client.conn.log, STDERR_STREAM) == session.stderr.stream[client.conn.fromErr..]
    {
      hide Session.OutputsValid, Session.ControlValid, AllTrack, AllProper, Parsing, StdinInOrder, InOrder, Delivered;
    }

    /** A connection that the session told an exit status was told the right one,
        as its last frame, and had by then all that the command ever wrote. */
    lemma ToldHadEverything(c: Conn)
      requires Valid() && Served(c) && !NoExit(c.log)
      ensures session.Finished() && Told(c, session.exitCode) && NoExit(c.log[..|c.log| - 1])
      ensures Delivered(c.log, STDOUT_STREAM) == session.stdout.stream[c.fromOut..]
      ensures Delivered(c.log, STDERR_STREAM) == session.stderr.stream[c.fromErr..]
    {
      hide Session.OutputsValid, Session.ControlValid, Parsing, StdinInOrder, InOrder, Delivered;
      PastTracked();
      assert AllProper(client.past);
      assert c in client.past;
      var i :| 0 <= i < |client.past| && client.past[i] == c;
      assert Proper(c) && Tracks(c, session.serial, session.StoryNow());
    }

    /** A client that owns standard input hangs up without another byte, in an
        agent that has just started: the session goes on with its input open and
        nobody to close it. */
    method OwnerHangsUp()
      requires Valid() && op.NoOp? && client.fd < 0 && session.Unused()
      modifies session, client, session.stdout`isOpen, session.stderr`isOpen, opSession
      ensures Valid() && client.fd < 0 && session.started && !session.exited && session.stdinOpen
    {
      hide AllProper, Remembers, UpToDate, Parsing, StdinInOrder, AllTrack, Session.OutputsValid, Session.ControlValid, Client.Valid, Follows, InputEnded, Offends, MountTable.Valid, MountTable.Accounted;
      session.Open("s", true, false);
      NobodyTracksAny(session.serial, session.StoryNow());
      client.Connect(3, 0, 0, true, false);
      session.Welcome(client);
      ghost var fs, taken, gone;
      fs, taken, gone := ClientEvent(3, [], false, false, true);
    }

    /** In every run, what was accepted for standard input has been written or is
        pending, in order, and an end the client asked for lost none of it. */
    lemma InputIsFifo(s: Session)
      requires Valid() && (s == session || s == opSession)
      ensures s.stdinOpen ==> s.stdin.written + s.pending[s.pendingOff..] == s.stdin.accepted
      ensures s.stdin.written <= s.stdin.accepted && (s.stdin.ending == Clean ==> s.stdin.written == s.stdin.accepted)
      ensures !s.closePending
    {
      hide Session.OutputsValid, Session.Linked, MountTable.Valid;
      assert Fifo(s.stdin, s.stdinOpen, s.pending, s.pendingOff);
    }

    /** In every run, each connection, served or not, was sent one exit status at most, and nothing after it. */
    lemma ExitIsLast(c: Conn)
      requires Valid() && (c in client.past || (client.fd >= 0 && c == client.conn))
      ensures ExitLast(c.log) && (client.fd >= 0 && c == client.conn ==> NoExit(c.log) || c in client.past)
    {
      hide Session.OutputsValid, Session.ControlValid, AllTrack, Parsing, StdinInOrder, MountTable.Valid, Slices, Whole;
      assert AllProper(client.past);
      if c in client.past {
        var i :| 0 <= i < |client.past| && client.past[i] == c;
        assert Proper(c);
      } else {
        UpToDateIsProper(c);
      }
    }
  }

  lemma NobodyTracksAny(serial: nat, s: Story)
    ensures AllTrack([], serial, s)
  {
  }

  lemma KeepFollows(keep: Keep, s: Story, s': Story)
    requires Follows(s, s')
    ensures keep.Keep? && Follows(keep.story, s) ==> Follows(keep.story, s')
  {
  }
}
