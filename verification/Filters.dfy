/** The two filter programs of the RUN sandbox, instruction by instruction, and
    the policies they stand for (guest/minimal-initrd/build_run_sandbox.c). */
module Filters {

  /** The jump from the instruction labelled `from` to the one labelled `to`. */
  function ForwardOffset(from: int, to: int): int {
    to - from - 1
  }

  // ---- Device access ----

  /** What the kernel passes: the kind of access above the kind of device, and the device's number. */
  datatype Device = Device(accessType: bv32, major: bv32, minor: bv32)

  datatype Field = AccessType | Major | Minor

  datatype Insn =
    | Load(field: Field)
    | And(mask: bv32)
    | JumpNe(value: bv32, off: int)
    | JumpEq(value: bv32, off: int)
    | Jump(off: int)
    | Mov(value: bv32)
    | Exit

  const ACC_MKNOD: bv32 := 0x10000
  const DEV_CHAR: bv32 := 2

  // The labels of the device filter, in the order of its instructions.
  const ALLOW_MKNOD := 2
  const REQUIRE_CHARACTER := 5
  const ALLOW_PTY := 7
  const CHECK_MEMORY_MAJOR := 8
  const CHECK_TTY_MAJOR := 9
  const DENY_OTHER_MAJOR := 10
  const LOAD_MEMORY_MINOR := 11
  const ALLOW_NULL := 12
  const ALLOW_ZERO := 13
  const ALLOW_FULL := 14
  const ALLOW_RANDOM := 15
  const ALLOW_URANDOM := 16
  const DENY_OTHER_MEMORY_MINOR := 17
  const LOAD_TTY_MINOR := 18
  const ALLOW_TTY := 19
  const ALLOW_PTMX := 20
  const DENY_OTHER_TTY_MINOR := 21
  const DENY_RESULT := 22
  const ALLOW_RESULT := 24

  const DEVICE_PROGRAM: seq<Insn> := [
    Load(AccessType),
    And(ACC_MKNOD),
    JumpNe(0, ForwardOffset(ALLOW_MKNOD, ALLOW_RESULT)),
    Load(AccessType),
    And(0xFFFF),
    JumpNe(DEV_CHAR, ForwardOffset(REQUIRE_CHARACTER, DENY_RESULT)),
    Load(Major),
    JumpEq(136, ForwardOffset(ALLOW_PTY, ALLOW_RESULT)),
    JumpEq(1, ForwardOffset(CHECK_MEMORY_MAJOR, LOAD_MEMORY_MINOR)),
    JumpEq(5, ForwardOffset(CHECK_TTY_MAJOR, LOAD_TTY_MINOR)),
    Jump(ForwardOffset(DENY_OTHER_MAJOR, DENY_RESULT)),
    Load(Minor),
    JumpEq(3, ForwardOffset(ALLOW_NULL, ALLOW_RESULT)),
    JumpEq(5, ForwardOffset(ALLOW_ZERO, ALLOW_RESULT)),
    JumpEq(7, ForwardOffset(ALLOW_FULL, ALLOW_RESULT)),
    JumpEq(8, ForwardOffset(ALLOW_RANDOM, ALLOW_RESULT)),
    JumpEq(9, ForwardOffset(ALLOW_URANDOM, ALLOW_RESULT)),
    Jump(ForwardOffset(DENY_OTHER_MEMORY_MINOR, DENY_RESULT)),
    Load(Minor),
    JumpEq(0, ForwardOffset(ALLOW_TTY, ALLOW_RESULT)),
    JumpEq(2, ForwardOffset(ALLOW_PTMX, ALLOW_RESULT)),
    Jump(ForwardOffset(DENY_OTHER_TTY_MINOR, DENY_RESULT)),
    Mov(0),
    Exit,
    Mov(1),
    Exit]

  function FieldOf(d: Device, f: Field): bv32 {
    match f
    case AccessType => d.accessType
    case Major => d.major
    case Minor => d.minor
  }

  /** Every way on from `pc` goes forward and stays in the program. */
  predicate Advances(program: seq<Insn>, pc: nat)
    requires pc < |program|
  {
    match program[pc]
    case JumpNe(_, off) => off >= 0 && pc + 1 + off < |program| && pc + 1 < |program|
    case JumpEq(_, off) => off >= 0 && pc + 1 + off < |program| && pc + 1 < |program|
    case Jump(off) => off >= 0 && pc + 1 + off < |program|
    case Exit => true
    case _ => pc + 1 < |program|
  }

  predicate Forward(program: seq<Insn>) {
    forall pc :: 0 <= pc < |program| ==> Advances(program, pc)
  }

  /** The machine: register 0 and the program counter. */
  function Execute(program: seq<Insn>, d: Device, pc: nat, r0: bv32): bv32
    requires Forward(program) && pc < |program|
    decreases |program| - pc
  {
    assert Advances(program, pc);
    match program[pc]
    case Load(f) => Execute(program, d, pc + 1, FieldOf(d, f))
    case And(mask) => Execute(program, d, pc + 1, r0 & mask)
    case JumpNe(value, off) => Execute(program, d, if r0 != value then pc + 1 + off else pc + 1, r0)
    case JumpEq(value, off) => Execute(program, d, if r0 == value then pc + 1 + off else pc + 1, r0)
    case Jump(off) => Execute(program, d, pc + 1 + off, r0)
    case Mov(value) => Execute(program, d, pc + 1, value)
    case Exit => r0
  }

  /** The devices of the memory major: null, zero, full, random and urandom. */
  predicate MemoryDevice(minor: bv32) {
    minor == 3 || minor == 5 || minor == 7 || minor == 8 || minor == 9
  }

  /** The devices of the tty major: tty and ptmx. */
  predicate TtyDevice(minor: bv32) {
    minor == 0 || minor == 2
  }

  /** Any mknod, and otherwise only the standard character devices and the pseudo terminals. */
  predicate DeviceAllowed(d: Device) {
    d.accessType & 0x10000 != 0 || (d.accessType & 0xFFFF == 2 && StandardDevice(d.major, d.minor))
  }

  predicate StandardDevice(major: bv32, minor: bv32) {
    major == 136 || (major == 1 && MemoryDevice(minor)) || (major == 5 && TtyDevice(minor))
  }

  lemma DeviceProgramForward()
    ensures Forward(DEVICE_PROGRAM)
  {
  }

  function Verdict(allowed: bool): bv32 {
    if allowed then 1 else 0
  }

  /** What one instruction does. */
  ghost predicate Steps(program: seq<Insn>, d: Device, pc: nat, r: bv32)
    requires Forward(program) && pc < |program| && Advances(program, pc)
  {
    Execute(program, d, pc, r) ==
    match program[pc]
    case Load(f) => Execute(program, d, pc + 1, FieldOf(d, f))
    case And(mask) => Execute(program, d, pc + 1, r & mask)
    case JumpNe(value, off) => Execute(program, d, if r != value then pc + 1 + off else pc + 1, r)
    case JumpEq(value, off) => Execute(program, d, if r == value then pc + 1 + off else pc + 1, r)
    case Jump(off) => Execute(program, d, pc + 1 + off, r)
    case Mov(value) => Execute(program, d, pc + 1, value)
    case Exit => r
  }

  lemma DeviceStep(d: Device, pc: nat, r: bv32)
    requires pc < |DEVICE_PROGRAM|
    ensures Forward(DEVICE_PROGRAM) && Advances(DEVICE_PROGRAM, pc) && Steps(DEVICE_PROGRAM, d, pc, r)
  {
    DeviceProgramForward();
    Unfold(DEVICE_PROGRAM, d, pc, r);
  }

  lemma Unfold(program: seq<Insn>, d: Device, pc: nat, r: bv32)
    requires Forward(program) && pc < |program|
    ensures Advances(program, pc) && Steps(program, d, pc, r)
  {
  }

  lemma Ends(d: Device, r: bv32)
    ensures Forward(DEVICE_PROGRAM) && Execute(DEVICE_PROGRAM, d, 22, r) == 0 && Execute(DEVICE_PROGRAM, d, 24, r) == 1
  {
    hide Execute, Forward;
    DeviceStep(d, 22, r);
    DeviceStep(d, 23, 0);
    DeviceStep(d, 24, r);
    DeviceStep(d, 25, 1);
  }

  lemma TtyMinors(d: Device, r: bv32)
    ensures Forward(DEVICE_PROGRAM) && Execute(DEVICE_PROGRAM, d, 18, r) == Verdict(TtyDevice(d.minor))
  {
    hide Execute, Forward;
    Ends(d, d.minor);
    DeviceStep(d, 18, r);
    DeviceStep(d, 19, d.minor);
    DeviceStep(d, 20, d.minor);
    DeviceStep(d, 21, d.minor);
  }

  lemma RandomMinors(d: Device)
    ensures Forward(DEVICE_PROGRAM) && Execute(DEVICE_PROGRAM, d, 15, d.minor) == Verdict(d.minor == 8 || d.minor == 9)
  {
    hide Execute, Forward;
    Ends(d, d.minor);
    DeviceStep(d, 15, d.minor);
    DeviceStep(d, 16, d.minor);
    DeviceStep(d, 17, d.minor);
  }

  lemma MemoryMinors(d: Device, r: bv32)
    ensures Forward(DEVICE_PROGRAM) && Execute(DEVICE_PROGRAM, d, 11, r) == Verdict(MemoryDevice(d.minor))
  {
    hide Execute, Forward;
    Ends(d, d.minor);
    DeviceStep(d, 11, r);
    DeviceStep(d, 12, d.minor);
    DeviceStep(d, 13, d.minor);
    DeviceStep(d, 14, d.minor);
    RandomMinors(d);
  }

  lemma Majors(d: Device, r: bv32)
    ensures Forward(DEVICE_PROGRAM)
    ensures Execute(DEVICE_PROGRAM, d, 6, r) == Verdict(StandardDevice(d.major, d.minor))
  {
    hide Execute, Forward, MemoryDevice, TtyDevice;
    Ends(d, d.major);
    MemoryMinors(d, d.major);
    TtyMinors(d, d.major);
    DeviceStep(d, 6, r);
    DeviceStep(d, 7, d.major);
    DeviceStep(d, 8, d.major);
    DeviceStep(d, 9, d.major);
    DeviceStep(d, 10, d.major);
  }

  lemma Kinds(d: Device, r: bv32)
    ensures Forward(DEVICE_PROGRAM)
    ensures Execute(DEVICE_PROGRAM, d, 3, r) == Verdict(d.accessType & 0xFFFF == DEV_CHAR && StandardDevice(d.major, d.minor))
  {
    hide Execute, Forward, StandardDevice;
    var kind := d.accessType & 0xFFFF;
    Ends(d, kind);
    Majors(d, kind);
    DeviceStep(d, 3, r);
    DeviceStep(d, 4, d.accessType);
    DeviceStep(d, 5, kind);
  }

  /** The device program lets through exactly what the policy allows. */
  lemma DeviceProgramIsPolicy(d: Device, r0: bv32)
    ensures Forward(DEVICE_PROGRAM) && Execute(DEVICE_PROGRAM, d, 0, r0) == if DeviceAllowed(d) then 1 else 0
  {
    hide Execute, Forward, StandardDevice;
    var mknod := d.accessType & ACC_MKNOD;
    Ends(d, mknod);
    Kinds(d, mknod);
    DeviceStep(d, 0, r0);
    DeviceStep(d, 1, d.accessType);
    DeviceStep(d, 2, mknod);
  }

  // ---- System calls ----

  /** The numbers the program is built with on its architecture. */
  datatype Numbers = Numbers(arch: bv32, ioUringSetup: bv32, clone3: bv32, clone: bv32, unshare: bv32, socket: bv32, socketpair: bv32)

  /** What the kernel passes: the architecture, the call's number and its first argument. */
  datatype Call = Call(arch: bv32, nr: bv32, arg0: bv64)

  /** The word of the first argument that is loaded: the low one. */
  function LowWord(x: bv64): bv32 {
    (x & 0xFFFF_FFFF) as bv32
  }

  datatype Operand = Arch | Nr | Arg0

  datatype Op =
    | LoadWord(operand: Operand)
    | IfEq(value: bv32, yes: int, no: int)
    | IfSet(bits: bv32, yes: int, no: int)
    | Goto(off: int)
    | Return(action: Action)

  datatype Action = Permit | Eperm | Enosys | Kill

  const X32_SYSCALL_BIT: bv32 := 0x4000_0000
  const CLONE_NEWUSER: bv32 := 0x1000_0000
  const AF_VSOCK: bv32 := 40

  // The labels of the system call filter, in the order of its instructions.
  const REQUIRE_ARCH := 1
  const KILL_X32 := 3
  const DENY_IO_URING := 4
  const HIDE_CLONE3 := 5
  const CHECK_CLONE := 6
  const CHECK_UNSHARE := 7
  const CHECK_SOCKET := 8
  const CHECK_SOCKETPAIR := 9
  const ALLOW_OTHER_CALL := 10
  const LOAD_CLONE_FLAGS := 11
  const DENY_USER_NAMESPACE := 12
  const LOAD_SOCKET_FAMILY := 13
  const DENY_VSOCK := 14
  const ALLOW_OTHER_FAMILY := 15
  const EPERM_RESULT := 16
  const PERMIT_RESULT := 17
  const KILL_RESULT := 18
  const ENOSYS_RESULT := 19

  function SyscallProgram(n: Numbers): seq<Op> {
    [LoadWord(Arch),
     IfEq(n.arch, 0, ForwardOffset(REQUIRE_ARCH, KILL_RESULT)),
     LoadWord(Nr),
     IfSet(X32_SYSCALL_BIT, ForwardOffset(KILL_X32, KILL_RESULT), 0),
     IfEq(n.ioUringSetup, ForwardOffset(DENY_IO_URING, EPERM_RESULT), 0),
     IfEq(n.clone3, ForwardOffset(HIDE_CLONE3, ENOSYS_RESULT), 0),
     IfEq(n.clone, ForwardOffset(CHECK_CLONE, LOAD_CLONE_FLAGS), 0),
     IfEq(n.unshare, ForwardOffset(CHECK_UNSHARE, LOAD_CLONE_FLAGS), 0),
     IfEq(n.socket, ForwardOffset(CHECK_SOCKET, LOAD_SOCKET_FAMILY), 0),
     IfEq(n.socketpair, ForwardOffset(CHECK_SOCKETPAIR, LOAD_SOCKET_FAMILY), 0),
     Goto(ForwardOffset(ALLOW_OTHER_CALL, PERMIT_RESULT)),
     LoadWord(Arg0),
     IfSet(CLONE_NEWUSER, ForwardOffset(DENY_USER_NAMESPACE, EPERM_RESULT), ForwardOffset(DENY_USER_NAMESPACE, PERMIT_RESULT)),
     LoadWord(Arg0),
     IfEq(AF_VSOCK, ForwardOffset(DENY_VSOCK, EPERM_RESULT), 0),
     Goto(ForwardOffset(ALLOW_OTHER_FAMILY, PERMIT_RESULT)),
     Return(Eperm),
     Return(Permit),
     Return(Kill),
     Return(Enosys)]
  }

  /** Every way on from `pc` goes forward and stays in the program, by offsets of one byte. */
  predicate GoesOn(program: seq<Op>, pc: nat)
    requires pc < |program|
  {
    match program[pc]
    case LoadWord(_) => pc + 1 < |program|
    case IfEq(_, yes, no) => 0 <= yes < 256 && 0 <= no < 256 && pc + 1 + yes < |program| && pc + 1 + no < |program|
    case IfSet(_, yes, no) => 0 <= yes < 256 && 0 <= no < 256 && pc + 1 + yes < |program| && pc + 1 + no < |program|
    case Goto(off) => off >= 0 && pc + 1 + off < |program|
    case Return(_) => true
  }

  predicate AllGoOn(program: seq<Op>) {
    forall pc :: 0 <= pc < |program| ==> GoesOn(program, pc)
  }

  function WordOf(c: Call, operand: Operand): bv32 {
    match operand
    case Arch => c.arch
    case Nr => c.nr
    case Arg0 => LowWord(c.arg0)
  }

  /** The machine: the accumulator and the program counter. */
  function Interpret(program: seq<Op>, c: Call, pc: nat, a: bv32): Action
    requires AllGoOn(program) && pc < |program|
    decreases |program| - pc
  {
    assert GoesOn(program, pc);
    match program[pc]
    case LoadWord(operand) => Interpret(program, c, pc + 1, WordOf(c, operand))
    case IfEq(value, yes, no) => Interpret(program, c, pc + 1 + if a == value then yes else no, a)
    case IfSet(bits, yes, no) => Interpret(program, c, pc + 1 + if a & bits != 0 then yes else no, a)
    case Goto(off) => Interpret(program, c, pc + 1 + off, a)
    case Return(action) => action
  }

  /** The rules in order: another architecture or an x32 call dies, io_uring is
      refused, clone3 is not there, and neither a user namespace nor a vsock
      socket is to be had. */
  function SyscallVerdict(n: Numbers, c: Call): Action {
    if c.arch != n.arch || c.nr & 0x4000_0000 != 0 then Kill
    else if c.nr == n.ioUringSetup then Eperm
    else if c.nr == n.clone3 then Enosys
    else if c.nr == n.clone || c.nr == n.unshare then if c.arg0 & 0x1000_0000 != 0 then Eperm else Permit
    else if c.nr == n.socket || c.nr == n.socketpair then if c.arg0 & 0xFFFF_FFFF == 40 then Eperm else Permit
    else Permit
  }

  lemma SyscallProgramForward(n: Numbers)
    ensures AllGoOn(SyscallProgram(n)) && |SyscallProgram(n)| == 20
  {
  }

  /** The tests of the low word are tests of the argument itself. */
  lemma LowWordTests(x: bv64)
    ensures LowWord(x) & CLONE_NEWUSER != 0 <==> x & 0x1000_0000 != 0
    ensures LowWord(x) == AF_VSOCK <==> x & 0xFFFF_FFFF == 40
  {
  }

  /** What one instruction does. */
  ghost predicate Goes(program: seq<Op>, c: Call, pc: nat, a: bv32)
    requires AllGoOn(program) && pc < |program| && GoesOn(program, pc)
  {
    Interpret(program, c, pc, a) ==
    match program[pc]
    case LoadWord(operand) => Interpret(program, c, pc + 1, WordOf(c, operand))
    case IfEq(value, yes, no) => Interpret(program, c, pc + 1 + if a == value then yes else no, a)
    case IfSet(bits, yes, no) => Interpret(program, c, pc + 1 + if a & bits != 0 then yes else no, a)
    case Goto(off) => Interpret(program, c, pc + 1 + off, a)
    case Return(action) => action
  }

  lemma SyscallStep(n: Numbers, c: Call, pc: nat, a: bv32)
    requires pc < 20
    ensures AllGoOn(SyscallProgram(n)) && |SyscallProgram(n)| == 20 && GoesOn(SyscallProgram(n), pc) && Goes(SyscallProgram(n), c, pc, a)
  {
    SyscallProgramForward(n);
    Unroll(SyscallProgram(n), c, pc, a);
  }

  lemma Unroll(program: seq<Op>, c: Call, pc: nat, a: bv32)
    requires AllGoOn(program) && pc < |program|
    ensures GoesOn(program, pc) && Goes(program, c, pc, a)
  {
  }

  lemma Results(n: Numbers, c: Call, a: bv32)
    ensures AllGoOn(SyscallProgram(n)) && |SyscallProgram(n)| == 20
    ensures Interpret(SyscallProgram(n), c, 16, a) == Eperm && Interpret(SyscallProgram(n), c, 17, a) == Permit
    ensures Interpret(SyscallProgram(n), c, 18, a) == Kill && Interpret(SyscallProgram(n), c, 19, a) == Enosys
  {
    hide Interpret, AllGoOn;
    SyscallStep(n, c, 16, a);
    SyscallStep(n, c, 17, a);
    SyscallStep(n, c, 18, a);
    SyscallStep(n, c, 19, a);
  }

  lemma Arguments(n: Numbers, c: Call, a: bv32)
    ensures AllGoOn(SyscallProgram(n)) && |SyscallProgram(n)| == 20
    ensures Interpret(SyscallProgram(n), c, 11, a) == if LowWord(c.arg0) & CLONE_NEWUSER != 0 then Eperm else Permit
    ensures Interpret(SyscallProgram(n), c, 13, a) == if LowWord(c.arg0) == AF_VSOCK then Eperm else Permit
  {
    hide Interpret, AllGoOn, LowWord;
    var low := LowWord(c.arg0);
    Results(n, c, low);
    SyscallStep(n, c, 11, a);
    SyscallStep(n, c, 12, low);
    SyscallStep(n, c, 13, a);
    SyscallStep(n, c, 14, low);
    SyscallStep(n, c, 15, low);
  }

  lemma SocketCalls(n: Numbers, c: Call)
    ensures AllGoOn(SyscallProgram(n)) && |SyscallProgram(n)| == 20
    ensures Interpret(SyscallProgram(n), c, 8, c.nr) ==
              if (c.nr == n.socket || c.nr == n.socketpair) && LowWord(c.arg0) == AF_VSOCK then Eperm else Permit
  {
    hide Interpret, AllGoOn, LowWord;
    Results(n, c, c.nr);
    Arguments(n, c, c.nr);
    SyscallStep(n, c, 8, c.nr);
    SyscallStep(n, c, 9, c.nr);
    SyscallStep(n, c, 10, c.nr);
  }

  lemma CallNumbers(n: Numbers, c: Call, a: bv32)
    ensures AllGoOn(SyscallProgram(n)) && |SyscallProgram(n)| == 20
    ensures c.nr & X32_SYSCALL_BIT == 0 ==> Interpret(SyscallProgram(n), c, 4, c.nr) == SyscallVerdict(n, c.(arch := n.arch))
  {
    hide Interpret, AllGoOn, LowWord;
    Results(n, c, c.nr);
    Arguments(n, c, c.nr);
    LowWordTests(c.arg0);
    SyscallStep(n, c, 4, c.nr);
    SyscallStep(n, c, 5, c.nr);
    SyscallStep(n, c, 6, c.nr);
    SyscallStep(n, c, 7, c.nr);
    SocketCalls(n, c);
  }

  /** The system call program gives the verdict of the rules, whatever the call. */
  lemma SyscallProgramIsPolicy(n: Numbers, c: Call, a: bv32)
    ensures AllGoOn(SyscallProgram(n)) && |SyscallProgram(n)| == 20
    ensures Interpret(SyscallProgram(n), c, 0, a) == SyscallVerdict(n, c)
  {
    hide Interpret, AllGoOn, LowWord;
    Results(n, c, c.arch);
    Results(n, c, c.nr);
    CallNumbers(n, c, a);
    SyscallStep(n, c, 0, a);
    SyscallStep(n, c, 1, c.arch);
    SyscallStep(n, c, 2, c.arch);
    SyscallStep(n, c, 3, c.nr);
  }
}
