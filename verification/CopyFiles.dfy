/** `spore cp` in and out of the guest: which paths are meant, and what becomes
    of a tree on its way (guest/minimal-initrd/copy.c). */
module CopyFiles {
  import opened Bytes
  import opened Tree
  import opened PathText
  import opened ConfinedWalk
  import opened GuestPaths
  import opened Archive
  import opened CopyTarget
  import opened CopyTransfer
  import Spio

  const TMP_DIR_CAP := MAX_COPY_FULL_PATH_LEN + 96
  const TMP_CAP := MAX_COPY_FULL_PATH_LEN + 112
  const TMP_ATTEMPTS := 16
  const PID_LIMIT := 0x8000_0000

  datatype Built = Built(text: string) | Overlong

  /** The two places the agent takes guest paths from: its own root and the mounted root file system. */
  predicate AgentRoot(root: string) {
    root == "" || root == "/mnt/rootfs"
  }

  ghost function RootPath(root: string): Path {
    if root == "" then [] else ["mnt", "rootfs"]
  }

  lemma RootIsSpelled(root: string)
    requires AgentRoot(root)
    ensures root == Spelled(RootPath(root)) && AllComponents(RootPath(root)) && |root| <= 11
  {
    assert Parent(["mnt", "rootfs"]) == ["mnt"] && Parent(["mnt"]) == [];
    assert Spelled(["mnt"]) == "" + "/" + "mnt";
    assert Spelled(["mnt", "rootfs"]) == "/mnt" + "/" + "rootfs";
    assert IsComponent("mnt") && IsComponent("rootfs");
  }

  lemma AppendedComponents(p: Path, q: Path)
    requires AllComponents(p) && AllComponents(q)
    ensures AllComponents(p + q)
  {
  }

  /** The components of an accepted path. */
  lemma EntryComponents(s: string)
    requires EntryPath(s)
    ensures Split(s) != [] && AllComponents(Split(s)) && s == Spelled(Split(s))
  {
    EntryPathIsShort(s);
  }

  /** `build_copy_path`: the path below the root, which always fits. */
  method BuildCopyPath(root: string, guest: string) returns (r: Built)
    requires AgentRoot(root) && EntryPath(guest)
    ensures r.Built? && r.text == Spelled(RootPath(root) + Split(guest)) && |r.text| <= |root| + MAX_COPY_PATH_LEN
  {
    hide Split, Spelled, RootPath;
    RootIsSpelled(root);
    EntryComponents(guest);
    SpelledAppend(RootPath(root), Split(guest));
    var text := if root == "" then guest else root + guest;
    assert "" + guest == guest;
    if 0 < |text| < MAX_COPY_FULL_PATH_LEN {
      return Built(text);
    }
    return Overlong;
  }

  function Digits(n: nat): string {
    if n < 10 then [('0' as int + n) as char] else Digits(n / 10) + [('0' as int + n % 10) as char]
  }

  ghost function Pow10(k: nat): nat {
    if k == 0 then 1 else 10 * Pow10(k - 1)
  }

  lemma {:induction false} DigitsAreFew(n: nat, k: nat)
    requires k > 0 && n < Pow10(k)
    ensures |Digits(n)| <= k
    decreases k
  {
    assert Pow10(1) == 10 * Pow10(0);
    if n >= 10 {
      assert k > 1;
      DigitsAreFew(n / 10, k - 1);
    }
  }

  /** The number that decimal digits write. */
  ghost function Value(s: string): int {
    if s == "" then 0 else Value(s[..|s| - 1]) * 10 + (s[|s| - 1] as int - '0' as int)
  }

  lemma {:induction false} DigitsRead(n: nat)
    ensures Value(Digits(n)) == n && forall i :: 0 <= i < |Digits(n)| ==> '0' <= Digits(n)[i] <= '9'
    decreases n
  {
    assert Value("") == 0;
    if n >= 10 {
      DigitsRead(n / 10);
      assert Digits(n)[..|Digits(n)| - 1] == Digits(n / 10);
    } else {
      assert Digits(n)[..0] == "";
    }
  }

  /** The name of the directory a copy is prepared in, beside the one it is for. */
  ghost function TmpName(name: Name, pid: nat, attempt: nat): Name {
    "." + name + ".spore-copy." + Digits(pid) + "." + Digits(attempt) + ".tmp"
  }

  lemma {:induction false} DigitsArePlain(n: nat)
    ensures Digits(n) != "" && forall i :: 0 <= i < |Digits(n)| ==> Digits(n)[i] != '/'
    decreases n
  {
    if n >= 10 {
      DigitsArePlain(n / 10);
    }
  }

  /** It is a name, longer than the other by twenty characters or more. */
  lemma TmpNameIsName(name: Name, pid: nat, attempt: nat)
    requires IsComponent(name)
    ensures IsComponent(TmpName(name, pid, attempt)) && |TmpName(name, pid, attempt)| >= |name| + 20
  {
    hide Digits;
    DigitsArePlain(pid);
    DigitsArePlain(attempt);
  }

  /** No two of the sixteen siblings are one. */
  lemma SiblingsDiffer(name: Name, pid: nat, a: nat, b: nat)
    requires TmpName(name, pid, a) == TmpName(name, pid, b)
    ensures a == b
  {
    hide Digits;
    var stem := "." + name + ".spore-copy." + Digits(pid) + ".";
    var x, y := TmpName(name, pid, a), TmpName(name, pid, b);
    assert x == stem + Digits(a) + ".tmp" && y == stem + Digits(b) + ".tmp";
    assert Digits(a) == x[|stem|..|x| - 4] && Digits(b) == y[|stem|..|y| - 4];
    DigitsRead(a);
    DigitsRead(b);
  }

  lemma TmpNameIsShort(name: Name, pid: nat, attempt: nat)
    requires pid < PID_LIMIT && attempt < TMP_ATTEMPTS
    ensures |TmpName(name, pid, attempt)| <= |name| + 30
  {
    hide Digits;
    assert Pow10(10) == 10_000_000_000 by {
      assert Pow10(3) == 1000;
      assert Pow10(6) == 1000 * Pow10(3);
      assert Pow10(9) == 1000 * Pow10(6);
    }
    assert Pow10(2) == 100;
    DigitsAreFew(pid, 10);
    DigitsAreFew(attempt, 2);
  }

  /** The directory beside `q` that a copy to `q` is prepared in. */
  ghost function TmpPath(q: Path, pid: nat, attempt: nat): Path
    requires q != []
  {
    Parent(q) + [TmpName(q[|q| - 1], pid, attempt)]
  }

  lemma LastSlashOfSpelled(q: Path)
    requires AllComponents(q) && q != []
    ensures LastSlash(Spelled(q)) == |Spelled(Parent(q))| && Spelled(q)[|Spelled(Parent(q))| + 1..] == q[|q| - 1] != ""
    ensures Spelled(q)[..|Spelled(Parent(q))|] == Spelled(Parent(q))
  {
    hide LastSlash;
    var m, name := |Spelled(Parent(q))|, q[|q| - 1];
    var text := Spelled(q);
    assert text == Spelled(Parent(q)) + "/" + name && IsComponent(name);
    assert text[m] == '/' && forall i :: m < i < |text| ==> text[i] == name[i - m - 1];
  }

  /** `build_copy_tmp_path`: the sibling of `q` for this attempt, refused exactly when its text does not fit. */
  method BuildTmpPath(path: string, pid: nat, attempt: nat, ghost q: Path) returns (r: Built)
    requires AllComponents(q) && q != [] && path == Spelled(q)
    ensures r.Built? ==> r.text == Spelled(TmpPath(q, pid, attempt))
    ensures r.Overlong? <==> |Spelled(TmpPath(q, pid, attempt))| >= TMP_DIR_CAP
  {
    hide LastSlash, Digits;
    LastSlashOfSpelled(q);
    var slash := LastSlash(path);
    var name := path[slash + 1..];
    var text := (if slash == 0 then "/." else path[..slash] + "/.") + name + ".spore-copy." + Digits(pid) + "." + Digits(attempt) + ".tmp";
    ghost var p := TmpPath(q, pid, attempt);
    assert Parent(p) == Parent(q) && p[|p| - 1] == TmpName(name, pid, attempt);
    assert text == Spelled(Parent(q)) + "/" + TmpName(name, pid, attempt);
    if 0 < |text| < TMP_DIR_CAP {
      return Built(text);
    }
    return Overlong;
  }

  lemma TmpFits(q: Path, pid: nat, attempt: nat)
    requires AllComponents(q) && q != [] && pid < PID_LIMIT && attempt < TMP_ATTEMPTS
    ensures |Spelled(TmpPath(q, pid, attempt))| <= |Spelled(q)| + 30
  {
    hide TmpName;
    TmpNameIsShort(q[|q| - 1], pid, attempt);
    var p := TmpPath(q, pid, attempt);
    assert Parent(p) == Parent(q);
  }

  // ---- A place to prepare a copy in ----

  /** The path's directory is one, wherever links on the way lead. */
  ghost predicate HasDirectory(fs: Fs, q: Path)
    requires q != []
  {
    var d := KernelResolve(fs, [], Parent(q), MAX_SYMLINK_DEPTH);
    d.At? && IsDir(fs, d.path)
  }

  /** The sibling for this attempt is there already. */
  ghost predicate Taken(fs: Fs, q: Path, pid: nat, attempt: nat)
    requires q != []
  {
    var at := Where(fs, TmpPath(q, pid, attempt));
    at.At? && at.path in fs
  }

  ghost predicate LongSibling(q: Path, pid: nat, attempt: nat)
    requires q != []
  {
    |TmpName(q[|q| - 1], pid, attempt)| > NAME_MAX
  }

  /** There is no place beside `q`: no directory, all sixteen siblings taken, or
      the first that is not has too long a name. */
  ghost predicate NoPlace(fs: Fs, q: Path, pid: nat)
    requires q != []
  {
    || !HasDirectory(fs, q)
    || (forall a :: 0 <= a < TMP_ATTEMPTS ==> Taken(fs, q, pid, a))
    || exists a :: 0 <= a < TMP_ATTEMPTS && LongSibling(q, pid, a) && forall b :: 0 <= b < a ==> Taken(fs, q, pid, b)
  }

  lemma SiblingFound(fs: Fs, q: Path, pid: nat, attempt: nat)
    requires q != []
    ensures Where(fs, TmpPath(q, pid, attempt)).At? <==> HasDirectory(fs, q) && !LongSibling(q, pid, attempt)
  {
    hide KernelResolve, TmpName;
    var p := TmpPath(q, pid, attempt);
    assert Parent(p) == Parent(q) && p[|p| - 1] == TmpName(q[|q| - 1], pid, attempt);
  }

  lemma TmpPathIsPlain(q: Path, pid: nat, attempt: nat)
    requires q != [] && AllComponents(q) && PlainPath(q)
    ensures TmpPath(q, pid, attempt) != [] && AllComponents(TmpPath(q, pid, attempt)) && PlainPath(TmpPath(q, pid, attempt))
  {
    hide TmpName;
    TmpNameIsName(q[|q| - 1], pid, attempt);
  }

  datatype Reserved = Reserved(text: string) | NoTemp

  /** `reserve_copy_tmp_dir`: the first of sixteen siblings that is not there is
      made, and any other trouble ends it. */
  method ReserveTmpDir(fs: Fs, nextId: nat, path: string, pid: nat, umask: nat, ghost q: Path)
    returns (r: Reserved, fs': Fs, ghost p: Path, ghost x: Path)
    requires WellFormed(fs) && AllComponents(q) && PlainPath(q) && q != [] && path == Spelled(q) && pid < PID_LIMIT && |path| <= MAX_COPY_FULL_PATH_LEN - 200
    ensures r.NoTemp? <==> NoPlace(fs, q, pid)
    ensures r.NoTemp? ==> fs' == fs
    ensures r.Reserved? ==>
              && (exists a :: 0 <= a < TMP_ATTEMPTS && p == TmpPath(q, pid, a)) && r.text == Spelled(p) && Place(fs, p, x)
              && fs' == fs[x := Node(nextId, Dir(Meta(Without(448, umask), 0, 0)))]
  {
    hide TmpPath, TmpName, Spelled, Where, PlainPath, AllComponents, HasDirectory, WellFormed;
    p, x := [], [];
    for i := 0 to TMP_ATTEMPTS
      invariant forall a :: 0 <= a < i ==> Taken(fs, q, pid, a)
    {
      TmpFits(q, pid, i);
      TmpPathIsPlain(q, pid, i);
      SiblingFound(fs, q, pid, i);
      p := TmpPath(q, pid, i);
      LocateSpelled(fs, p);
      var built := BuildTmpPath(path, pid, i, q);
      var at := Locate(fs, built.text);
      if at.Fails? {
        return NoTemp, fs, p, x;
      }
      if at.path !in fs {
        WhereIsBelow(fs, p);
        x := at.path;
        NotNoPlace(fs, q, pid, i);
        return Reserved(built.text), fs[at.path := Node(nextId, Dir(Meta(Without(448, umask), 0, 0)))], p, x;
      }
    }
    return NoTemp, fs, p, x;
  }

  lemma WhereIsBelow(fs: Fs, p: Path)
    requires p != [] && Where(fs, p).At?
    ensures Where(fs, p).path != []
  {
  }

  lemma NotNoPlace(fs: Fs, q: Path, pid: nat, i: nat)
    requires q != [] && i < TMP_ATTEMPTS && (forall a :: 0 <= a < i ==> Taken(fs, q, pid, a))
    requires Where(fs, TmpPath(q, pid, i)).At? && !Taken(fs, q, pid, i)
    ensures !NoPlace(fs, q, pid)
  {
    hide Where, TmpPath, LongSibling, HasDirectory;
    forall a | 0 <= a < i ensures !LongSibling(q, pid, a) {
      assert Taken(fs, q, pid, a);
      SiblingFound(fs, q, pid, a);
    }
    SiblingFound(fs, q, pid, i);
  }

  /** A name of 236 characters or more is a legal one, and can never be copied to. */
  lemma LongNamesHaveNoPlace(fs: Fs, q: Path, pid: nat)
    requires q != [] && IsComponent(q[|q| - 1]) && |q[|q| - 1]| >= 236
    ensures NoPlace(fs, q, pid)
  {
    hide TmpName, HasDirectory, Taken;
    TmpNameIsName(q[|q| - 1], pid, 0);
    assert LongSibling(q, pid, 0);
  }

  /** Such as this one, in the root directory. */
  lemma LongNameIsAccepted(name: Name)
    requires IsComponent(name) && 236 <= |name| <= NAME_MAX
    ensures EntryPath("/" + name) && Split("/" + name) == [name] && forall fs, pid: nat :: NoPlace(fs, [name], pid)
  {
    hide NoPlace, Split;
    SplitComponent(name);
    assert ("/" + name)[1..] == name && Split("/" + name) == Split(name) by {
      LeadingSlash(name);
    }
    assert Parent([name]) == [] && Spelled([name]) == "" + "/" + name;
    forall fs, pid: nat ensures NoPlace(fs, [name], pid) {
      LongNamesHaveNoPlace(fs, [name], pid);
    }
  }

  // ---- Copying in ----

  datatype Received = BadPath | NoTempDir | TransferFailed | CannotWrite | AlreadyThere | Copied

  /** What the connection sends is this archive, in order and to its close. */
  ghost predicate Arrived(input: seq<byte>, archive: seq<byte>) {
    exists n: nat :: Transfers(Spio.Decode(input).frames, n) && archive == Spio.Payloads(Spio.Decode(input).frames[..n])
  }

  lemma ArrivesOnce(input: seq<byte>, a: seq<byte>, b: seq<byte>)
    requires Arrived(input, a) && Arrived(input, b)
    ensures a == b
  {
    hide InOrder;
    var fs := Spio.Decode(input).frames;
    var n: nat :| Transfers(fs, n) && a == Spio.Payloads(fs[..n]);
    var m: nat :| Transfers(fs, m) && b == Spio.Payloads(fs[..m]);
    TransfersOnce(fs, n, m);
  }

  lemma ArrivesWhenTransferred(input: seq<byte>)
    ensures (exists n: nat :: Transfers(Spio.Decode(input).frames, n)) ==> exists a :: Arrived(input, a)
    ensures (exists a :: Arrived(input, a)) ==> exists n: nat :: Transfers(Spio.Decode(input).frames, n)
    ensures forall n: nat :: Transfers(Spio.Decode(input).frames, n) ==> Arrived(input, Spio.Payloads(Spio.Decode(input).frames[..n]))
  {
    hide InOrder, Spio.Decode, Spio.Payloads, CloseAt;
    var fs := Spio.Decode(input).frames;
    forall n: nat | Transfers(fs, n) ensures Arrived(input, Spio.Payloads(fs[..n])) {
    }
    forall a | Arrived(input, a) ensures exists n: nat :: Transfers(fs, n) {
      var n: nat :| Transfers(fs, n) && a == Spio.Payloads(fs[..n]);
    }
  }

  /** The archive holds a tree, which is made as `made`, wherever it goes: each
      of its entries, with its data, and nothing else. */
  ghost predicate Holds(archive: seq<byte>, umask: nat, made: Layer) {
    ARCHIVE_MAGIC <= archive && exists es :: Yields(archive[|ARCHIVE_MAGIC|..], es, map[], umask, 0, made) && Makes(es, made, umask)
  }

  /** With the paths the agent uses, room is never what decides. */
  lemma RoomIsNothing(b: seq<byte>, es: seq<Entry>, umask: nat, room: nat, room': nat, made: Layer)
    requires Yields(b, es, map[], umask, room, made) && room' <= MAX_COPY_FULL_PATH_LEN
    ensures Yields(b, es, map[], umask, room', made)
  {
    hide Carriable, Build, Packed, AllText, HasRoom;
    forall i | 0 <= i < |es| ensures Portable(es[i], room') {
      SentHasRoom(es[i], room');
    }
  }

  lemma NotHeld(archive: seq<byte>, umask: nat, room: nat)
    requires room <= MAX_COPY_FULL_PATH_LEN
    requires !(ARCHIVE_MAGIC <= archive) || !exists es, m :: Yields(archive[|ARCHIVE_MAGIC|..], es, map[], umask, room, m)
    ensures !exists m :: Holds(archive, umask, m)
  {
    hide Yields;
    forall m ensures !Holds(archive, umask, m) {
      if Holds(archive, umask, m) {
        var es :| Yields(archive[|ARCHIVE_MAGIC|..], es, map[], umask, 0, m);
        RoomIsNothing(archive[|ARCHIVE_MAGIC|..], es, umask, 0, room, m);
      }
    }
  }

  lemma HeldOnce(archive: seq<byte>, umask: nat, m: Layer, m': Layer)
    requires Holds(archive, umask, m) && Holds(archive, umask, m')
    ensures m == m'
  {
    hide Yields;
    var b := archive[|ARCHIVE_MAGIC|..];
    var es :| Yields(b, es, map[], umask, 0, m);
    var es' :| Yields(b, es', map[], umask, 0, m');
    YieldsOne(b, es, m, es', m', umask, 0);
  }

  /** The archive is received into a file of the temporary directory, or nothing is left of it. */
  method ReceiveInto(fs: Fs, nextId: nat, tmp: string, umask: nat, input: seq<byte>, ghost base: Fs, ghost p: Path, ghost x: Path)
    returns (ok: bool, fs': Fs, ghost archive: seq<byte>)
    requires Place(base, p, x) && Staged(base, p, x, fs) && IsDir(fs, x) && x + ARCHIVE !in fs && tmp == Spelled(p)
    ensures ok <==> exists a :: Arrived(input, a)
    ensures !ok ==> fs' == fs
    ensures ok ==> Arrived(input, archive) && Staged(base, p, x, fs')
                   && fs' == fs[x + ARCHIVE := Node(nextId, File(Meta(Without(384, umask), 0, 0), archive))]
  {
    hide Place, Staged, Locate, Spelled, Transfers, Arrived;
    PlainNames(tmp);
    InTheDirectory(base, p, x, fs, "archive");
    var at := Locate(fs, tmp + "/archive").path;
    var data;
    ghost var n;
    ok, data, n := Receive(input);
    ArrivesWhenTransferred(input);
    fs', archive := fs, data;
    if ok {
      var node := Node(nextId, File(Meta(Without(384, umask), 0, 0), data));
      StagedFile(base, p, x, fs, "archive", node);
      fs' := fs[at := node];
    }
  }

  lemma PlainNames(tmp: string)
    ensures tmp + "/archive" == tmp + "/" + "archive" && tmp + "/payload" == tmp + "/" + "payload"
    ensures IsComponent("archive") && IsComponent("payload") && |"archive"| < 20 && |"payload"| < 20
    ensures "archive" != "." && "archive" != ".." && "payload" != "." && "payload" != ".." && "archive" != "payload"
  {
    assert "archive"[0] == 'a' && "payload"[0] == 'p';
  }

  /** The rest of `copy_in_file`, once it has a temporary directory: that is gone
      in every outcome, and what is new is the tree the archive holds, or nothing. */
  method Complete(base: Fs, fs: Fs, nextId: nat, tmp: string, path: string, umask: nat, input: seq<byte>,
                  ghost p: Path, ghost x: Path, ghost q: Path, ghost to: Path, ghost first: nat)
    returns (r: Received, fs': Fs, ghost archive: seq<byte>, ghost made: Layer)
    requires Place(base, p, x) && Staged(base, p, x, fs) && IsDir(fs, x) && NewFrom(base, fs, first) && first <= nextId
    requires (forall s :: s in fs && x <= s ==> s == x) && tmp == Spelled(p)
    requires AllComponents(q) && q != [] && path == Spelled(q) && Where(base, q) == At(to) && to != [] && !(x <= to) && !(to <= x)
    ensures r.TransferFailed? || r.CannotWrite? || r.AlreadyThere? || r.Copied?
    ensures r.TransferFailed? <==> !exists a :: Arrived(input, a)
    ensures !r.TransferFailed? ==> Arrived(input, archive) && (r.CannotWrite? <==> !exists m :: Holds(archive, umask, m))
    ensures r.AlreadyThere? || r.Copied? ==> Holds(archive, umask, made) && (r.AlreadyThere? <==> to in base)
    ensures !r.Copied? ==> fs' == base
    ensures r.Copied? ==> Laid(base, to, made, fs') && NewFrom(base, fs', first)
  {
    hide Place, Staged, Locate, Spelled, Where, Transfers, Arrived, Holds, Laid, NewFrom, PlainPath, AllComponents;
    made := map[];
    assert x <= x + ARCHIVE;
    var ok, fs2;
    ok, fs2, archive := ReceiveInto(fs, nextId, tmp, umask, input, base, p, x);
    if !ok {
      fs' := Discard(base, fs, tmp, p, x);
      return TransferFailed, fs', archive, made;
    }
    ArchiveIsIn(base, x, fs, first, nextId, fs2, archive);
    r, fs', made := ExtractAndPublish(base, fs2, nextId + 1, tmp, path, umask, archive, p, x, q, to, first);
  }

  /** `remove_tree` on the temporary directory, before anything is published. */
  method Discard(ghost base: Fs, fs: Fs, tmp: string, ghost p: Path, ghost x: Path) returns (fs': Fs)
    requires Staged(base, p, x, fs) && x in fs && tmp == Spelled(p)
    ensures fs' == base
  {
    hide Removing, Spelled;
    assert x + [] == x && p + [] == p;
    var ok;
    ok, fs' := RemoveTree(fs, tmp, base, p, x, []);
    Unstaged(base, p, x, fs);
  }

  /** The temporary directory with the archive in it, and nothing else. */
  ghost predicate Loaded(fs: Fs, x: Path, archive: seq<byte>) {
    && IsDir(fs, x) && x + ARCHIVE in fs && fs[x + ARCHIVE].view.File? && fs[x + ARCHIVE].view.data == archive
    && forall s :: s in fs && x <= s ==> s == x || s == x + ARCHIVE
  }

  lemma ArchiveIsIn(base: Fs, x: Path, fs: Fs, first: nat, nextId: nat, fs': Fs, archive: seq<byte>)
    requires NewFrom(base, fs, first) && first <= nextId && IsDir(fs, x) && (forall s :: s in fs && x <= s ==> s == x)
    requires x + ARCHIVE in fs' && fs'[x + ARCHIVE].view.File? && fs'[x + ARCHIVE] == Node(nextId, fs'[x + ARCHIVE].view)
    requires fs' == fs[x + ARCHIVE := fs'[x + ARCHIVE]] && fs'[x + ARCHIVE].view.data == archive
    ensures NewFrom(base, fs', first) && Loaded(fs', x, archive)
  {
    assert |x + ARCHIVE| > |x|;
  }

  method ExtractAndPublish(base: Fs, fs: Fs, nextId: nat, tmp: string, path: string, umask: nat, ghost archive: seq<byte>,
                           ghost p: Path, ghost x: Path, ghost q: Path, ghost to: Path, ghost first: nat)
    returns (r: Received, fs': Fs, ghost made: Layer)
    requires Place(base, p, x) && Staged(base, p, x, fs) && NewFrom(base, fs, first) && first <= nextId && Loaded(fs, x, archive) && tmp == Spelled(p)
    requires AllComponents(q) && q != [] && path == Spelled(q) && Where(base, q) == At(to) && to != [] && !(x <= to) && !(to <= x)
    ensures r.CannotWrite? || r.AlreadyThere? || r.Copied?
    ensures r.CannotWrite? <==> !exists m :: Holds(archive, umask, m)
    ensures !r.CannotWrite? ==> Holds(archive, umask, made) && (r.AlreadyThere? <==> to in base)
    ensures !r.Copied? ==> fs' == base
    ensures r.Copied? ==> Laid(base, to, made, fs') && NewFrom(base, fs', first)
  {
    hide Place, Staged, Locate, Spelled, Where, Yields, Makes, Laid, NewFrom, PlainPath, AllComponents, Extracting, Vacated, Over;
    PlainNames(tmp);
    InTheDirectory(base, p, x, fs, "archive");
    InTheDirectory(base, p, x, fs, "payload");
    PayloadIsFree(base, p, x, fs, archive);
    var data := fs[Locate(fs, tmp + "/archive").path].view.data;
    var payload := tmp + "/payload";
    assert |payload| <= MAX_COPY_FULL_PATH_LEN by {
      TmpIsShort(base, p, x);
    }
    var ok, fs3, nextId3;
    ok, fs3, nextId3, made := ExtractInto(fs, nextId, payload, data, umask, p + PAYLOAD, x + PAYLOAD);
    StagedPayload(base, p, x, fs, nextId, made, fs3);
    ExtractedKeeps(base, x, fs, first, nextId, made, fs3);
    if !ok {
      NotHeld(archive, umask, |payload|);
      fs' := Discard(base, fs3, tmp, p, x);
      return CannotWrite, fs', made;
    }
    ghost var es :| Yields(data[|ARCHIVE_MAGIC|..], es, map[], umask, |payload|, made);
    RoomIsNothing(data[|ARCHIVE_MAGIC|..], es, umask, |payload|, 0, made);
    YieldsMakes(data[|ARCHIVE_MAGIC|..], es, umask, 0, made);
    assert Holds(archive, umask, made);
    HeldHasTop(data[|ARCHIVE_MAGIC|..], es, umask, made, fs, nextId, x + PAYLOAD, fs3);
    r, fs' := PublishCopy(base, fs3, tmp, path, p, x, q, to, first, made);
  }

  lemma TmpIsShort(base: Fs, p: Path, x: Path)
    requires Place(base, p, x)
    ensures |Spelled(p)| <= MAX_COPY_FULL_PATH_LEN - 100
  {
  }

  lemma PayloadIsFree(base: Fs, p: Path, x: Path, fs: Fs, archive: seq<byte>)
    requires Staged(base, p, x, fs) && Loaded(fs, x, archive)
    ensures WellFormed(fs) && Vacated(fs, x + PAYLOAD) && x + PAYLOAD != [] && Parent(x + PAYLOAD) == x
  {
    hide Removing;
    RemovingParts(base, p, x, fs);
    PlainNames("");
    assert x <= x + PAYLOAD;
    assert (x + PAYLOAD)[|x|] == "payload" && (x + ARCHIVE)[|x|] == "archive";
    forall s | s in fs ensures !(x + PAYLOAD <= s) {
      assert x + PAYLOAD <= s ==> x <= s;
    }
  }

  /** What extraction leaves as it was. */
  lemma ExtractedKeeps(base: Fs, x: Path, fs: Fs, first: nat, nextId: nat, made: Layer, fs': Fs)
    requires Extracting(fs, nextId, x + PAYLOAD, made, fs') && NewFrom(base, fs, first) && first <= nextId
    requires x in fs && x + ARCHIVE in fs
    ensures NewFrom(base, fs', first) && x in fs' && x + ARCHIVE in fs' && fs'[x] == fs[x] && fs'[x + ARCHIVE] == fs[x + ARCHIVE]
    ensures Holding(fs', x + PAYLOAD, made)
  {
    hide WellFormed;
    ExtractedIsHeld(fs, nextId, x + PAYLOAD, made, fs');
  }

  lemma HeldHasTop(b: seq<byte>, es: seq<Entry>, umask: nat, made: Layer, fs: Fs, first: nat, x: Path, fs': Fs)
    requires Yields(b, es, map[], umask, 0, made) && Extracting(fs, first, x, made, fs')
    ensures [] in made && Ordinary(made[[]])
  {
    hide Build, Packed, AllText, WellFormed;
  }

  /** The archive goes, the payload is published unless something is there, and the temporary directory goes. */
  method PublishCopy(base: Fs, fs: Fs, tmp: string, path: string, ghost p: Path, ghost x: Path, ghost q: Path, ghost to: Path, ghost first: nat, ghost made: Layer)
    returns (r: Received, fs': Fs)
    requires Place(base, p, x) && Staged(base, p, x, fs) && NewFrom(base, fs, first) && Holding(fs, x + PAYLOAD, made) && [] in made && Ordinary(made[[]])
    requires IsDir(fs, x) && x + ARCHIVE in fs && fs[x + ARCHIVE].view.File? && tmp == Spelled(p)
    requires AllComponents(q) && q != [] && path == Spelled(q) && Where(base, q) == At(to) && to != [] && !(x <= to) && !(to <= x)
    ensures r == if to in base then AlreadyThere else Copied
    ensures r.AlreadyThere? ==> fs' == base
    ensures r.Copied? ==> Laid(base, to, made, fs') && NewFrom(base, fs', first)
  {
    hide Place, Staged, Locate, Spelled, Where, Laid, NewFrom, PlainPath, AllComponents, Moved, Removing, Holding, WellFormed;
    PlainNames(tmp);
    InTheDirectory(base, p, x, fs, "archive");
    StagedLess(base, p, x, fs, "archive");
    var left := fs - {Locate(fs, tmp + "/archive").path};
    StillHeld(base, x, fs, first, made, left);
    InTheDirectory(base, p, x, left, "payload");
    TargetFound(base, p, x, left, q, to);
    var from := Locate(left, tmp + "/payload").path;
    var isFile := left[from].view.File?;
    var ok, published;
    ok, published := Publish(left, tmp + "/payload", path, isFile, x + PAYLOAD, to);
    if !ok {
      fs' := Discard(base, left, tmp, p, x);
      return AlreadyThere, fs';
    }
    IsGoal(base, p, x, q, to);
    if isFile {
      LinkedIsLaid(base, p, x, left, first, made, to);
    } else {
      RenamedIsLaid(base, p, x, left, first, made, to);
    }
    TmpStays(x, left, to, published);
    assert x + [] == x && p + [] == p;
    ok, fs' := RemoveTree(published, tmp, base, p, x, []);
    r := Copied;
  }

  lemma StillHeld(base: Fs, x: Path, fs: Fs, first: nat, made: Layer, left: Fs)
    requires left == fs - {x + ARCHIVE} && Holding(fs, x + PAYLOAD, made) && NewFrom(base, fs, first) && [] in made && IsDir(fs, x)
    ensures Holding(left, x + PAYLOAD, made) && NewFrom(base, left, first) && x + PAYLOAD in left && IsDir(left, x) && left[x + PAYLOAD].view == made[[]]
  {
    PlainNames("");
    assert x + PAYLOAD + [] == x + PAYLOAD;
    forall r ensures x + PAYLOAD + r != x + ARCHIVE {
      assert (x + PAYLOAD + r)[|x|] == "payload" && (x + ARCHIVE)[|x|] == "archive";
    }
    assert |x + ARCHIVE| > |x|;
  }

  lemma TargetFound(base: Fs, p: Path, x: Path, fs: Fs, q: Path, to: Path)
    requires Staged(base, p, x, fs) && AllComponents(q) && q != [] && Where(base, q) == At(to) && !(x <= to)
    ensures Locate(fs, Spelled(q)) == At(to) && (to in fs <==> to in base)
  {
    hide Where, Locate, Removing, Spelled;
    StagedOver(base, p, x, fs);
    WhereGrows(base, fs, q);
    LocateSpelled(fs, q);
  }

  lemma IsGoal(base: Fs, p: Path, x: Path, q: Path, to: Path)
    requires Place(base, p, x) && q != [] && Where(base, q) == At(to) && to != [] && to !in base && !(x <= to) && !(to <= x)
    ensures Goal(base, x, to)
  {
    hide KernelResolve, AllComponents, PlainPath, Spelled;
  }

  lemma TmpStays(x: Path, fs: Fs, to: Path, fs': Fs)
    requires x in fs && x + PAYLOAD in fs && !(x <= to) && !(to <= x) && (fs' == fs[to := fs[x + PAYLOAD]] || fs' == Moved(fs, x + PAYLOAD, to))
    ensures x in fs'
  {
    hide Moved;
    assert !(x + PAYLOAD <= x);
  }

  /** `copy_in_file`, whole. Whatever comes of it, the temporary directory is gone
      and nothing that was there is changed; a copy that succeeds adds the tree
      that arrived, at a path that had nothing. */
  method CopyIn(fs: Fs, nextId: nat, root: string, guest: string, pid: nat, umask: nat, input: seq<byte>)
    returns (r: Received, fs': Fs, ghost to: Path, ghost archive: seq<byte>, ghost made: Layer)
    requires WellFormed(fs) && AgentRoot(root) && pid < PID_LIMIT
    ensures r.BadPath? <==> !EntryPath(guest)
    ensures r.NoTempDir? <==> EntryPath(guest) && NoPlace(fs, RootPath(root) + Split(guest), pid)
    ensures !r.BadPath? && !r.NoTempDir? ==>
              && Where(fs, RootPath(root) + Split(guest)) == At(to)
              && (r.TransferFailed? <==> !exists a :: Arrived(input, a))
              && (!r.TransferFailed? ==> Arrived(input, archive) && (r.CannotWrite? <==> !exists m :: Holds(archive, umask, m)))
              && (!r.TransferFailed? && !r.CannotWrite? ==> Holds(archive, umask, made) && r == if to in fs then AlreadyThere else Copied)
    ensures !r.Copied? ==> fs' == fs
    ensures r.Copied? ==> Laid(fs, to, made, fs') && NewFrom(fs, fs', nextId)
  {
    hide Split, Spelled, Where, EntryPath, RootPath, NoPlace, Place, Staged, NewFrom, Laid, Holds, Arrived, WellFormed, AllComponents, PlainPath, TmpPath;
    fs', to, archive, made := fs, [], [], map[];
    var ok := ValidEntryPath(guest);
    if !ok {
      return BadPath, fs', to, archive, made;
    }
    ghost var q := RootPath(root) + Split(guest);
    GuestPath(root, guest);
    var path := BuildCopyPath(root, guest);
    var tmp, fs1;
    ghost var p, x;
    tmp, fs1, p, x := ReserveTmpDir(fs, nextId, path.text, pid, umask, q);
    if tmp.NoTemp? {
      return NoTempDir, fs', to, archive, made;
    }
    to := SiblingsApart(fs, q, p, pid, x);
    var node := Node(nextId, Dir(Meta(Without(448, umask), 0, 0)));
    StagedDirectory(fs, p, x, node);
    OnlyTheDirectory(fs, p, x, fs1, node);
    r, fs', archive, made := Complete(fs, fs1, nextId + 1, tmp.text, path.text, umask, input, p, x, q, to, nextId);
  }

  lemma OnlyTheDirectory(base: Fs, p: Path, x: Path, fs: Fs, node: Node)
    requires Place(base, p, x) && fs == base[x := node]
    ensures forall s :: s in fs && x <= s ==> s == x
  {
    hide WellFormed, Where, AllComponents, PlainPath, Spelled;
    PlaceIsFree(base, p, x);
  }

  lemma GuestPath(root: string, guest: string)
    requires AgentRoot(root) && EntryPath(guest)
    ensures var q := RootPath(root) + Split(guest);
            q != [] && AllComponents(q) && PlainPath(q) && |root| + MAX_COPY_PATH_LEN <= MAX_COPY_FULL_PATH_LEN - 200
  {
    hide Split, Spelled;
    RootIsSpelled(root);
    EntryComponents(guest);
    AppendedComponents(RootPath(root), Split(guest));
  }

  /** The path itself is found beside its temporary directory. */
  lemma SiblingsApart(fs: Fs, q: Path, p: Path, pid: nat, x: Path) returns (to: Path)
    requires q != [] && AllComponents(q) && Place(fs, p, x) && exists a :: 0 <= a < TMP_ATTEMPTS && p == TmpPath(q, pid, a)
    ensures Where(fs, q) == At(to) && to != [] && !(x <= to) && !(to <= x)
  {
    hide KernelResolve, TmpName, WellFormed, PlainPath, Spelled;
    var a :| 0 <= a < TMP_ATTEMPTS && p == TmpPath(q, pid, a);
    var name := q[|q| - 1];
    TmpNameIsName(name, pid, a);
    assert Parent(p) == Parent(q) && p[|p| - 1] == TmpName(name, pid, a);
    var d := KernelResolve(fs, [], Parent(q), MAX_SYMLINK_DEPTH).path;
    to := d + [name];
    assert x == d + [TmpName(name, pid, a)] && x[|d|] != to[|d|];
  }

  // ---- Copying out ----

  datatype Sent = BadGuestPath | CannotRead | Archive(bytes: seq<byte>)

  /** The guest's tree: names and files as file systems have them. */
  ghost predicate GuestTree(fs: Fs) {
    && WellFormed(fs)
    && (forall p, i :: p in fs && 0 <= i < |p| ==> IsComponent(p[i]) && p[i] != "." && p[i] != ".." && ByteName(p[i]) && |p[i]| <= NAME_MAX)
    && (forall p :: p in fs && fs[p].view.File? ==> |fs[p].view.data| < Pow256(8))
  }

  /** What is at `x` and below, as a tree of its own. */
  function Subtree(fs: Fs, x: Path): (m: Fs)
    ensures forall r :: r in m <==> x + r in fs
    ensures forall r :: r in m ==> m[r] == fs[x + r]
  {
    var keys := set q | q in fs && x <= q :: q[|x|..];
    assert forall r :: r in keys <==> x + r in fs by {
      forall r | x + r in fs ensures r in keys {
        assert x <= x + r && (x + r)[|x|..] == r;
      }
      forall q | q in fs && x <= q ensures x + q[|x|..] == q {
      }
    }
    map r | r in keys :: fs[x + r]
  }

  lemma {:induction false} NamesAreText(p: Path)
    requires forall i :: 0 <= i < |p| ==> ByteName(p[i])
    ensures ByteText(Join(p)) && NoNul(Join(p))
    decreases |p|
  {
    if |p| == 1 {
      assert Join(p) == p[0];
    } else if |p| > 1 {
      NamesAreText(Parent(p));
    }
  }

  lemma SubtreeIsRooted(fs: Fs, x: Path)
    requires GuestTree(fs) && x in fs
    ensures Rooted(Subtree(fs, x))
  {
    hide Subtree, Join, ByteText, NoNul, IsComponent, ByteName, Pow256;
    var m := Subtree(fs, x);
    assert x + [] == x;
    forall r | r in m ensures AllComponents(r) && PlainPath(r) && ByteText(Join(r)) && NoNul(Join(r)) && NameFits(r) {
      forall i | 0 <= i < |r| ensures r[i] == (x + r)[|x| + i] {
      }
      NamesAreText(r);
    }
    forall r | r in m && r != [] ensures IsDir(m, Parent(r)) {
      assert Parent(x + r) == x + Parent(r);
      ParentIsDir(fs, x + r);
    }
  }

  /** What is at the path: nothing is followed at its end. */
  ghost predicate Something(fs: Fs, q: Path)
    requires q != []
  {
    Where(fs, q).At? && Where(fs, q).path in fs
  }

  /** The archive holds the tree `src`, whatever umask it is made under. */
  ghost predicate Carries(archive: seq<byte>, src: Fs, umask: nat) {
    exists made :: Holds(archive, umask, made) && Reproduces(src, made, umask)
  }

  lemma SentCarries(archive: seq<byte>, src: Fs, es: seq<Entry>, umask: nat)
    requires Rooted(src) && AllText(es) && Emitted(src, [], es, Packed(es)) && archive == ARCHIVE_MAGIC + Packed(es) + EncodeRecord(END_RECORD)
    ensures Carries(archive, src, umask)
  {
    hide Rooted, AllText, Emitted, Packed, EncodeRecord, Reproduces, Yields, Makes;
    var body := Packed(es) + EncodeRecord(END_RECORD);
    assert archive[|ARCHIVE_MAGIC|..] == body && ARCHIVE_MAGIC <= archive;
    var made := RoundTrip(src, es, umask, 0);
    YieldsMakes(body, es, umask, 0, made);
    assert Holds(archive, umask, made);
  }

  /** `copy_out_file`: a bad path, nothing at it or something in it that cannot
      be sent, or an archive that holds just the tree. */
  method CopyOutFile(fs: Fs, root: string, guest: string) returns (r: Sent, ghost x: Path)
    requires GuestTree(fs) && AgentRoot(root)
    ensures r.BadGuestPath? <==> !EntryPath(guest)
    ensures EntryPath(guest) ==>
              var q := RootPath(root) + Split(guest);
              q != [] && (r.CannotRead? <==> !(Something(fs, q) && Emittable(Subtree(fs, Where(fs, q).path), [])))
    ensures r.Archive? ==>
              && Where(fs, RootPath(root) + Split(guest)) == At(x) && x in fs
              && forall umask: nat :: Carries(r.bytes, Subtree(fs, x), umask)
  {
    hide Split, Spelled, Yields, EntryPath, RootPath, Rooted, Emitted, Emittable, EncodeRecord, Packed, Carries, GuestTree, Where, Subtree, AllComponents, PlainPath;
    x := [];
    var ok := ValidEntryPath(guest);
    if !ok {
      return BadGuestPath, x;
    }
    RootIsSpelled(root);
    GuestPath(root, guest);
    ghost var q := RootPath(root) + Split(guest);
    var path := BuildCopyPath(root, guest);
    LocateSpelled(fs, q);
    var at := Locate(fs, path.text);
    if at.Fails? || at.path !in fs {
      return CannotRead, x;
    }
    x := at.path;
    SubtreeIsRooted(fs, x);
    var src := Subtree(fs, at.path);
    var sent, archive;
    ghost var es;
    sent, archive, es := CopyOut(src, |path.text|);
    if !sent {
      return CannotRead, x;
    }
    forall umask: nat ensures Carries(archive, src, umask) {
      SentCarries(archive, src, es, umask);
    }
    r := Archive(archive);
  }

  /** What was at `x` of one tree is at `to` of the other: each file with its
      data and permission bits, each directory, and nothing else is new. */
  ghost predicate Delivered(fs: Fs, x: Path, dst: Fs, to: Path, dst': Fs, umask: nat) {
    && (forall q :: q in dst ==> q in dst' && dst'[q] == dst[q])
    && (forall q :: q in dst' && q !in dst ==> to <= q && x + q[|to|..] in fs)
    && (forall r {:trigger x + r} :: x + r in fs ==> to + r in dst' && MadeAs(fs[x + r].view, dst'[to + r].view, umask))
  }

  lemma LaidIsDelivered(fs: Fs, x: Path, dst: Fs, to: Path, made: Layer, dst': Fs, umask: nat)
    requires Laid(dst, to, made, dst') && Reproduces(Subtree(fs, x), made, umask)
    ensures Delivered(fs, x, dst, to, dst', umask)
  {
    hide MadeAs, Subtree;
    forall r | x + r in fs ensures to + r in dst' && MadeAs(fs[x + r].view, dst'[to + r].view, umask) {
      assert r in Subtree(fs, x);
    }
  }

  /** Out of one guest and into another: whatever can be copied out arrives and
      is made as the same tree, at any path that has a place beside it and nothing at it. */
  method CopyOutAndIn(fs: Fs, root: string, guest: string, dst: Fs, nextId: nat, root': string, guest': string, pid: nat, umask: nat)
    returns (sent: Sent, r: Received, dst': Fs, ghost x: Path, ghost to: Path)
    requires GuestTree(fs) && WellFormed(dst) && AgentRoot(root) && AgentRoot(root') && pid < PID_LIMIT
    ensures sent.BadGuestPath? <==> !EntryPath(guest)
    ensures EntryPath(guest) ==>
              var q := RootPath(root) + Split(guest);
              q != [] && (sent.Archive? <==> Something(fs, q) && Emittable(Subtree(fs, Where(fs, q).path), []))
    ensures sent.Archive? && |sent.bytes| < Pow256(8) && EntryPath(guest') ==>
              var q := RootPath(root') + Split(guest');
              && q != [] && (r.NoTempDir? <==> NoPlace(dst, q, pid))
              && (!r.NoTempDir? ==> Where(dst, q) == At(to) && r == if to in dst then AlreadyThere else Copied)
    ensures sent.Archive? && |sent.bytes| < Pow256(8) && r.Copied? ==> Delivered(fs, x, dst, to, dst', umask)
    ensures sent.Archive? ==> Where(fs, RootPath(root) + Split(guest)) == At(x) && x in fs
    ensures !r.Copied? ==> dst' == dst
  {
    hide Split, Spelled, TmpPath, Where, EntryPath, RootPath, GuestTree, WellFormed, Emittable, Something, Holds, Carries, Reproduces, Delivered, Subtree, NoPlace, Laid, NewFrom, Arrived, Transfers, AllComponents, PlainPath;
    r, dst', to := BadPath, dst, [];
    sent, x := CopyOutFile(fs, root, guest);
    if sent.Archive? {
      var ok := ValidEntryPath(guest');
      if ok {
        GuestPath(root', guest');
      }
      ghost var archive, made;
      r, dst', to, archive, made := CopyIn(dst, nextId, root', guest', pid, umask, Transfer(sent.bytes));
      if |sent.bytes| < Pow256(8) {
        SentArrives(sent.bytes);
        if !r.BadPath? && !r.NoTempDir? {
          ArrivesOnce(Transfer(sent.bytes), archive, sent.bytes);
          CarriedIsHeld(sent.bytes, Subtree(fs, x), umask, made);
          if r.Copied? {
            LaidIsDelivered(fs, x, dst, to, made, dst', umask);
          }
        }
      }
    }
  }

  lemma CarriedIsHeld(archive: seq<byte>, src: Fs, umask: nat, made: Layer)
    requires Carries(archive, src, umask)
    ensures exists m :: Holds(archive, umask, m)
    ensures Holds(archive, umask, made) ==> Reproduces(src, made, umask)
  {
    hide Holds, Reproduces;
    var m :| Holds(archive, umask, m) && Reproduces(src, m, umask);
    if Holds(archive, umask, made) {
      HeldOnce(archive, umask, made, m);
    }
  }

  lemma SentArrives(archive: seq<byte>)
    requires |archive| < Pow256(8)
    ensures Arrived(Transfer(archive), archive)
  {
    hide Transfers, Transfer, Pow256;
    TransferArrives(archive);
  }
}
