/** What the agent asks of a request beyond the form of each member
    (guest/minimal-initrd/request.c). */
module RequestRules {
  import opened Bytes
  import opened Json
  import opened TargetLists
  import opened MemberValues

  const MAX_BUILD_NOFILE := 1048576
  const MAX_BUILD_EXEC_ARGS_BYTES := 4096

  // The kinds of request that have rules of their own, and the members the rules are about.
  const START := 1
  const ATTACH := 2
  const BUILD_RUN := 6
  const BUILD_COPY := 7
  const BUILD_WORKDIR := 8

  const ARGV := 3
  const WORKING_DIR := 5
  const STDIO := 6
  const TERMINAL_ROWS := 8
  const TERMINAL_COLS := 9
  const INTERACTIVE := 10
  const MEMORY_PRESSURE := 11
  const DETACHED := 14
  const RETAIN_OUTPUT := 15
  const COMMAND_LEN := 20
  const CACHE_MOUNTS := 21
  const CONTEXT_BINDS := 22
  const NOFILE_SOFT := 23
  const NOFILE_HARD := 24
  const SOURCE_KIND := 27
  const ENTRY_COUNT := 29
  const SOURCE_DISK := 30
  const INPUT_INDEX := 31
  const DESTINATION_POLICY := 33

  // A member that is missing counts as the zero it is cleared to.

  function TextOf(m: map<nat, Value>, id: nat): seq<byte> {
    if id in m && m[id].Text? then m[id].text else []
  }

  function NumberOf(m: map<nat, Value>, id: nat): nat {
    if id in m && m[id].Number? then m[id].number else 0
  }

  predicate FlagOf(m: map<nat, Value>, id: nat) {
    id in m && m[id].Flag? && m[id].flag
  }

  function StringsOf(m: map<nat, Value>, id: nat): seq<seq<byte>> {
    if id in m && m[id].Strings? then m[id].strings else []
  }

  function MountsIn(m: map<nat, Value>, id: nat): seq<MountText> {
    if id in m && m[id].Mounts? then m[id].mounts else []
  }

  predicate Rooted(text: seq<byte>) {
    text != [] && text[0] == Ch('/')
  }

  function TotalLength(ss: seq<seq<byte>>): nat {
    if ss == [] then 0 else TotalLength(ss[..|ss| - 1]) + |ss[|ss| - 1]|
  }

  function Caches(m: map<nat, Value>): seq<string> {
    TargetTexts(MountsIn(m, CACHE_MOUNTS))
  }

  function Binds(m: map<nat, Value>): seq<string> {
    TargetTexts(MountsIn(m, CONTEXT_BINDS))
  }

  /** `validate_build_run_request`: a command is streamed or given as arguments,
      binds come with a streamed one only, and no bind overlaps a cache mount. */
  ghost predicate RunAllowed(m: map<nat, Value>) {
    var argv := StringsOf(m, ARGV);
    && Rooted(TextOf(m, WORKING_DIR)) && Says(TextOf(m, STDIO), "pipe")
    && NumberOf(m, TERMINAL_ROWS) == 24 && NumberOf(m, TERMINAL_COLS) == 80 && !FlagOf(m, MEMORY_PRESSURE)
    && 0 < NumberOf(m, NOFILE_SOFT) <= NumberOf(m, NOFILE_HARD) <= MAX_BUILD_NOFILE
    && TotalLength(argv) <= MAX_BUILD_EXEC_ARGS_BYTES
    && (argv != [] ==> NumberOf(m, COMMAND_LEN) == 0 && MountsIn(m, CONTEXT_BINDS) == [])
    && (argv == [] ==> NumberOf(m, COMMAND_LEN) != 0)
    && NoneAcross(Caches(m), Binds(m))
  }

  /** `validate_build_copy_request`. */
  predicate CopyAllowed(m: map<nat, Value>) {
    var isAuto := Says(TextOf(m, SOURCE_KIND), "auto");
    && (if Says(TextOf(m, SOURCE_DISK), "context")
        then !isAuto && NumberOf(m, ENTRY_COUNT) != 0 && NumberOf(m, INPUT_INDEX) == 0
        else isAuto && NumberOf(m, ENTRY_COUNT) == 0)
    && (Says(TextOf(m, DESTINATION_POLICY), "link") ==> Says(TextOf(m, SOURCE_DISK), "build_input"))
  }

  predicate StartAllowed(m: map<nat, Value>) {
    && StringsOf(m, ARGV) != [] && (TextOf(m, WORKING_DIR) != [] ==> Rooted(TextOf(m, WORKING_DIR)))
    && (FlagOf(m, RETAIN_OUTPUT) ==> FlagOf(m, DETACHED)) && (FlagOf(m, DETACHED) ==> Says(TextOf(m, STDIO), "null"))
  }

  predicate AttachAllowed(m: map<nat, Value>) {
    && (Says(TextOf(m, STDIO), "pipe") ==> FlagOf(m, INTERACTIVE))
    && (Says(TextOf(m, STDIO), "null") ==> !FlagOf(m, INTERACTIVE))
  }

  /** `validate_request`. */
  ghost predicate Allowed(kind: nat, m: map<nat, Value>) {
    if kind == START then StartAllowed(m)
    else if kind == ATTACH then AttachAllowed(m)
    else if kind == BUILD_WORKDIR then Rooted(TextOf(m, WORKING_DIR))
    else if kind == BUILD_RUN then RunAllowed(m)
    else kind == BUILD_COPY ==> CopyAllowed(m)
  }

  method ValidateRun(m: map<nat, Value>) returns (ok: bool)
    ensures ok <==> RunAllowed(m)
  {
    hide TextOf, NumberOf, FlagOf, StringsOf, MountsIn, Says, TargetTexts, NoneAcross, Rooted;
    if !Rooted(TextOf(m, WORKING_DIR)) || !Says(TextOf(m, STDIO), "pipe") ||
       NumberOf(m, TERMINAL_ROWS) != 24 || NumberOf(m, TERMINAL_COLS) != 80 || FlagOf(m, MEMORY_PRESSURE) {
      return false;
    }
    var soft, hard := NumberOf(m, NOFILE_SOFT), NumberOf(m, NOFILE_HARD);
    if soft == 0 || soft > hard || hard > MAX_BUILD_NOFILE {
      return false;
    }
    var argv := StringsOf(m, ARGV);
    var decoded := 0;
    for i := 0 to |argv|
      invariant decoded == TotalLength(argv[..i])
    {
      decoded := decoded + |argv[i]|;
      assert argv[..i + 1][..i] == argv[..i];
    }
    assert argv[..|argv|] == argv;
    if decoded > MAX_BUILD_EXEC_ARGS_BYTES {
      return false;
    }
    if argv != [] && (NumberOf(m, COMMAND_LEN) != 0 || MountsIn(m, CONTEXT_BINDS) != []) {
      return false;
    }
    if argv == [] && NumberOf(m, COMMAND_LEN) == 0 {
      return false;
    }
    ok := AcceptAcross(Caches(m), Binds(m));
  }

  method ValidateStart(m: map<nat, Value>) returns (ok: bool)
    ensures ok <==> StartAllowed(m)
  {
    hide TextOf, FlagOf, StringsOf, Says;
    var dir := TextOf(m, WORKING_DIR);
    if StringsOf(m, ARGV) == [] {
      return false;
    }
    if dir != [] && dir[0] != Ch('/') {
      return false;
    }
    if FlagOf(m, RETAIN_OUTPUT) && !FlagOf(m, DETACHED) {
      return false;
    }
    if FlagOf(m, DETACHED) && !Says(TextOf(m, STDIO), "null") {
      return false;
    }
    return true;
  }

  method ValidateAttach(m: map<nat, Value>) returns (ok: bool)
    ensures ok <==> AttachAllowed(m)
  {
    hide TextOf, FlagOf, Says;
    if Says(TextOf(m, STDIO), "pipe") && !FlagOf(m, INTERACTIVE) {
      return false;
    }
    if Says(TextOf(m, STDIO), "null") && FlagOf(m, INTERACTIVE) {
      return false;
    }
    return true;
  }

  method ValidateCopy(m: map<nat, Value>) returns (ok: bool)
    ensures ok <==> CopyAllowed(m)
  {
    hide TextOf, NumberOf, Says;
    if Says(TextOf(m, SOURCE_DISK), "context") {
      if Says(TextOf(m, SOURCE_KIND), "auto") || NumberOf(m, ENTRY_COUNT) == 0 || NumberOf(m, INPUT_INDEX) != 0 {
        return false;
      }
    } else if !Says(TextOf(m, SOURCE_KIND), "auto") || NumberOf(m, ENTRY_COUNT) != 0 {
      return false;
    }
    if Says(TextOf(m, DESTINATION_POLICY), "link") && !Says(TextOf(m, SOURCE_DISK), "build_input") {
      return false;
    }
    return true;
  }

  method Validate(kind: nat, m: map<nat, Value>) returns (ok: bool)
    ensures ok <==> Allowed(kind, m)
  {
    hide RunAllowed, CopyAllowed, StartAllowed, AttachAllowed, TextOf;
    if kind == START {
      ok := ValidateStart(m);
    } else if kind == ATTACH {
      ok := ValidateAttach(m);
    } else if kind == BUILD_WORKDIR {
      var dir := TextOf(m, WORKING_DIR);
      ok := dir != [] && dir[0] == Ch('/');
    } else if kind == BUILD_RUN {
      ok := ValidateRun(m);
    } else if kind == BUILD_COPY {
      ok := ValidateCopy(m);
    } else {
      ok := true;
    }
  }
}
