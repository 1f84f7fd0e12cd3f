/** The names of the request members (guest/minimal-initrd/request.c). */
module MemberNames {
  import opened Bytes
  import opened MemberValues

  const MEMBER_NAMES: seq<string> := [
    "type", "session_id", "resume_time_unix_ns", "argv", "env", "working_dir", "stdio", "term", "terminal_rows", "terminal_cols",
    "interactive", "memory_pressure", "params_json", "require_generation_ready", "detached", "retain_output", "closed_env",
    "stdout_offset", "stderr_offset", "path", "command_len", "cache_mounts", "context_binds", "nofile_soft", "nofile_hard",
    "source", "dest", "source_kind", "dest_is_dir", "entry_count", "source_disk", "input_index", "mtime_unix_seconds",
    "destination_policy"]

  /** The first of the names that `key` says, or -1. */
  ghost function IndexIn(key: seq<byte>, names: seq<string>): (i: int)
    ensures -1 <= i < |names| && (i >= 0 ==> Says(key, names[i]))
    ensures forall j :: 0 <= j < (if i < 0 then |names| else i) ==> !Says(key, names[j])
  {
    if names == [] then -1
    else
      var before := IndexIn(key, names[..|names| - 1]);
      if before >= 0 then before else if Says(key, names[|names| - 1]) then |names| - 1 else -1
  }

  /** The search of a table of names. */
  method FindIn(key: seq<byte>, names: seq<string>) returns (i: int)
    ensures i == IndexIn(key, names)
  {
    hide IndexIn, Says;
    for k := 0 to |names|
      invariant forall j :: 0 <= j < k ==> !Says(key, names[j])
    {
      if Says(key, names[k]) {
        return k;
      }
    }
    return -1;
  }

  /** A number that tells the names apart. */
  ghost function Mark(s: string): int
    requires |s| >= 2
  {
    |s| * 1000 + s[|s| / 4] as int + s[|s| - 2] as int
  }

  /** The name's place, from that number. */
  ghost function Placed(mark: int): int {
    if mark == 4233 then 0 else if mark == 10220 then 1 else if mark == 19219 then 2 else if mark == 4217 then 3 else if mark == 3211 then 4 else
    if mark == 11219 then 5 else if mark == 5221 then 6 else if mark == 4215 then 7 else if mark == 13228 then 8 else if mark == 13217 then 9 else
    if mark == 11234 then 10 else if mark == 15225 then 11 else if mark == 11225 then 12 else if mark == 24201 then 13 else if mark == 8217 then 14 else
    if mark == 13214 then 15 else if mark == 10221 then 16 else if mark == 13212 then 17 else if mark == 13202 then 18 else if mark == 4213 then 19 else
    if mark == 11210 then 20 else if mark == 12220 then 21 else if mark == 13216 then 22 else if mark == 11204 then 23 else if mark == 11216 then 24 else
    if mark == 6210 then 25 else if mark == 4216 then 26 else if mark == 11227 then 27 else if mark == 11220 then 28 else if mark == 11226 then 29 else
    if mark == 11232 then 30 else if mark == 11213 then 31 else if mark == 18201 then 32 else if mark == 18204 then 33 else -1
  }

  /** The name is the one at place `j`, and fits a key's buffer as ASCII. */
  ghost predicate IsNth(s: string, j: int) {
    2 <= |s| < 32 && Placed(Mark(s)) == j && forall i :: 0 <= i < |s| ==> 0 < s[i] as int < 128
  }

  lemma Names0()
    ensures IsNth(MEMBER_NAMES[0], 0) && IsNth(MEMBER_NAMES[1], 1) && IsNth(MEMBER_NAMES[2], 2) && IsNth(MEMBER_NAMES[3], 3)
  {
  }

  lemma Names1()
    ensures IsNth(MEMBER_NAMES[4], 4) && IsNth(MEMBER_NAMES[5], 5) && IsNth(MEMBER_NAMES[6], 6) && IsNth(MEMBER_NAMES[7], 7)
  {
  }

  lemma Names2()
    ensures IsNth(MEMBER_NAMES[8], 8) && IsNth(MEMBER_NAMES[9], 9) && IsNth(MEMBER_NAMES[10], 10) && IsNth(MEMBER_NAMES[11], 11)
  {
  }

  lemma Names3()
    ensures IsNth(MEMBER_NAMES[12], 12) && IsNth(MEMBER_NAMES[13], 13) && IsNth(MEMBER_NAMES[14], 14) && IsNth(MEMBER_NAMES[15], 15)
  {
  }

  lemma Names4()
    ensures IsNth(MEMBER_NAMES[16], 16) && IsNth(MEMBER_NAMES[17], 17) && IsNth(MEMBER_NAMES[18], 18) && IsNth(MEMBER_NAMES[19], 19)
  {
  }

  lemma Names5()
    ensures IsNth(MEMBER_NAMES[20], 20) && IsNth(MEMBER_NAMES[21], 21) && IsNth(MEMBER_NAMES[22], 22) && IsNth(MEMBER_NAMES[23], 23)
  {
  }

  lemma Names6()
    ensures IsNth(MEMBER_NAMES[24], 24) && IsNth(MEMBER_NAMES[25], 25) && IsNth(MEMBER_NAMES[26], 26) && IsNth(MEMBER_NAMES[27], 27)
  {
  }

  lemma Names7()
    ensures IsNth(MEMBER_NAMES[28], 28) && IsNth(MEMBER_NAMES[29], 29) && IsNth(MEMBER_NAMES[30], 30) && IsNth(MEMBER_NAMES[31], 31)
  {
  }

  lemma Names8()
    ensures IsNth(MEMBER_NAMES[32], 32) && IsNth(MEMBER_NAMES[33], 33)
  {
  }

  lemma NamesCounted()
    ensures |MEMBER_NAMES| == 34
  {
  }

  lemma EachIsNth(j: nat)
    requires j < |MEMBER_NAMES|
    ensures IsNth(MEMBER_NAMES[j], j)
  {
    hide MEMBER_NAMES, IsNth;
    NamesCounted();
    Names0();
    Names1();
    Names2();
    Names3();
    Names4();
    Names5();
    Names6();
    Names7();
    Names8();
  }

  /** A key that says a member's name is that member's, and no other. */
  lemma NameIsFound(key: seq<byte>, j: nat)
    requires j < |MEMBER_NAMES|
    ensures IndexIn(key, MEMBER_NAMES) == j <==> Says(key, MEMBER_NAMES[j])
  {
    hide MEMBER_NAMES, IndexIn, Mark, Placed;
    var i := IndexIn(key, MEMBER_NAMES);
    if Says(key, MEMBER_NAMES[j]) {
      assert MEMBER_NAMES[i] == MEMBER_NAMES[j];
      EachIsNth(i);
      EachIsNth(j);
    }
  }

  lemma NameIsShort(j: nat)
    requires j < |MEMBER_NAMES|
    ensures 2 <= |MEMBER_NAMES[j]| < 32 && forall i :: 0 <= i < |MEMBER_NAMES[j]| ==> 0 < MEMBER_NAMES[j][i] as int < 128
  {
    hide MEMBER_NAMES, Mark, Placed;
    EachIsNth(j);
  }
}
