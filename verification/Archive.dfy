/** The archives of `spore cp`: a tree as a run of records, each parent before
    its children (guest/minimal-initrd/copy.c). */
module Archive {
  import opened Bytes
  import opened Tree
  import opened PathText

  const ARCHIVE_MAGIC: seq<byte> := [0x53, 0x50, 0x43, 0x50, 0x31, 0x0A, 0x00, 0x0A]
  const RECORD_HEADER_LEN := 16
  const KIND_FILE: byte := 0x46
  const KIND_DIR: byte := 0x44
  const KIND_END: byte := 0x45
  const MAX_CHILD_TEXT := MAX_COPY_FULL_PATH_LEN + MAX_COPY_PATH_LEN + 2

  // ---- Names as bytes ----

  /** A name as file systems have them: bytes other than NUL. */
  ghost predicate ByteName(n: Name) {
    forall i :: 0 <= i < |n| ==> 0 < n[i] as int < 256
  }

  predicate ByteText(s: string) {
    forall i :: 0 <= i < |s| ==> s[i] as int < 256
  }

  function ToBytes(s: string): (b: seq<byte>)
    requires ByteText(s)
    ensures |b| == |s|
  {
    seq(|s|, i requires 0 <= i < |s| => s[i] as int)
  }

  function ToText(b: seq<byte>): (s: string)
    ensures |s| == |b| && ByteText(s)
  {
    seq(|b|, i requires 0 <= i < |b| => b[i] as char)
  }

  lemma TextRoundTrip(s: string)
    requires ByteText(s)
    ensures ToText(ToBytes(s)) == s
  {
  }

  // ---- Records ----

  /** What one record describes. A directory has no data. */
  datatype Record = Record(kind: byte, path: string, mode: nat, size: nat)

  /** `send_copy_record`, once the path is checked. */
  function EncodeRecord(r: Record): (s: seq<byte>)
    requires ByteText(r.path)
    ensures |s| == RECORD_HEADER_LEN + |r.path|
  {
    [r.kind] + WriteLe(|r.path|, 2) + WriteLe(r.mode % 512, 4) + WriteLe(r.size, 8) + [0] + ToBytes(r.path)
  }

  datatype Read<T> = Some(value: T, rest: seq<byte>) | None

  /** `validate_copy_archive_path` with the root allowed: a relative path spelled with plain components only. */
  predicate ArchivePath(s: string) {
    |s| <= MAX_COPY_PATH_LEN && PlainPath(Split(s)) && s == Join(Split(s)) && forall i :: 0 <= i < |s| ==> s[i] != 0 as char
  }

  lemma ArchivePathShape(s: string)
    requires ArchivePath(s) && s != ""
    ensures s[0] != '/' && s[|s| - 1] != '/' && forall i :: 0 <= i < |s| - 1 && s[i] == '/' ==> s[i + 1] != '/'
  {
    hide Split, Spelled, Join;
    var p := Split(s);
    if p == [] {
      JoinNothing();
    } else {
      SpelledIsJoin(p);
      SpelledShape(p);
      var full := "/" + s;
      forall i | 0 <= i < |s| ensures full[i + 1] == s[i] {
      }
    }
  }

  /** The scan of `validate_copy_archive_path`. */
  method ValidArchivePath(path: string) returns (ok: bool)
    ensures ok <==> ArchivePath(path)
  {
    hide Split, Spelled, Join, Begins;
    JoinNothing();
    if path == "" {
      return true;
    }
    if ArchivePath(path) {
      ArchivePathShape(path);
    }
    if |path| > MAX_COPY_PATH_LEN || path[0] == '/' || path[|path| - 1] == '/' {
      return false;
    }
    ghost var full := "/" + path;
    LeadingSlash(path);
    ghost var seen: Path := [];
    BeginsFresh(path);
    var i := 0;
    while i < |path|
      invariant 0 <= i <= |path| && AllComponents(seen) && PlainPath(seen)
      invariant forall j :: 0 <= j < i ==> path[j] != 0 as char
      invariant if i < |path| then Begins(full, i + 1, seen) else full == Spelled(seen)
    {
      var start, clean := i, true;
      i, clean := PartEnd(path, start);
      if !clean {
        return false;
      }
      var part := path[start..i];
      if part == "" {
        SlashBefore(path, start, seen);
        return false;
      }
      NextPart(path, seen, start, i);
      if part == "." || part == ".." {
        return false;
      }
      seen := seen + [part];
      if i < |path| {
        i := i + 1;
      }
    }
    SplitSpelled(seen);
    assert seen != [] by { SpelledNothing(seen); }
    SpelledIsJoin(seen);
    assert full[1..] == path && ("/" + Join(seen))[1..] == Join(seen);
    return true;
  }

  /** Where the component at `start` ends, if no NUL comes first. */
  method PartEnd(path: string, start: nat) returns (i: nat, clean: bool)
    requires start <= |path|
    ensures start <= i <= |path| && (!clean ==> i < |path| && path[i] == 0 as char)
    ensures clean ==> (forall j :: start <= j < i ==> path[j] != '/' && path[j] != 0 as char) && (i < |path| ==> path[i] == '/')
  {
    i := start;
    while i < |path| && path[i] != '/'
      invariant start <= i <= |path| && forall j :: start <= j < i ==> path[j] != '/' && path[j] != 0 as char
    {
      if path[i] == 0 as char {
        return i, false;
      }
      i := i + 1;
    }
    clean := true;
  }

  /** `read_copy_record` on what is left of an archive. */
  function ReadRecord(b: seq<byte>): (r: Read<Record>)
    ensures r.Some? ==> |r.rest| + RECORD_HEADER_LEN <= |b|
  {
    if |b| < RECORD_HEADER_LEN then None
    else
      var kind, len, mode, size := b[0], ReadLe(b[1..3]), ReadLe(b[3..7]), ReadLe(b[7..15]);
      if b[15] != 0 || len > MAX_COPY_PATH_LEN || mode >= 512 || |b| < RECORD_HEADER_LEN + len then None
      else
        var path, rest := ToText(b[RECORD_HEADER_LEN..RECORD_HEADER_LEN + len]), b[RECORD_HEADER_LEN + len..];
        if kind == KIND_END then
          if path == "" && mode == 0 && size == 0 then Some(Record(kind, path, mode, size), rest) else None
        else if kind != KIND_FILE && kind != KIND_DIR then None
        else if kind == KIND_DIR && size != 0 then None
        else if !ArchivePath(path) then None
        else Some(Record(kind, path, mode, size), rest)
  }

  /** A record the reader takes as it was sent. */
  ghost predicate Sendable(r: Record) {
    && ByteText(r.path) && r.size < Pow256(8) && r.mode < 512
    && if r.kind == KIND_END then r.path == "" && r.mode == 0 && r.size == 0
       else (r.kind == KIND_FILE || (r.kind == KIND_DIR && r.size == 0)) && ArchivePath(r.path)
  }

  lemma RecordParts(r: Record, tail: seq<byte>)
    requires ByteText(r.path)
    ensures var b := EncodeRecord(r) + tail;
            && b[0] == r.kind && b[1..3] == WriteLe(|r.path|, 2) && b[3..7] == WriteLe(r.mode % 512, 4) && b[7..15] == WriteLe(r.size, 8)
            && b[15] == 0 && b[RECORD_HEADER_LEN..RECORD_HEADER_LEN + |r.path|] == ToBytes(r.path) && b[RECORD_HEADER_LEN + |r.path|..] == tail
  {
    hide WriteLe, ToBytes;
  }

  lemma Widths()
    ensures MAX_COPY_PATH_LEN < Pow256(2) && 512 <= Pow256(4)
  {
    assert Pow256(2) == 256 * (256 * Pow256(0));
    assert Pow256(4) == 256 * (256 * Pow256(2));
  }

  /** A record is read back as it was sent, whatever follows it. */
  lemma RecordRoundTrip(r: Record, tail: seq<byte>)
    requires Sendable(r)
    ensures ReadRecord(EncodeRecord(r) + tail) == Some(r, tail)
  {
    hide EncodeRecord, WriteLe, ReadLe, Pow256, ToBytes, ToText;
    RecordParts(r, tail);
    Widths();
    ReadWriteLe(|r.path|, 2);
    ReadWriteLe(r.mode, 4);
    ReadWriteLe(r.size, 8);
    TextRoundTrip(r.path);
    ArchivePathIsShort(r);
  }

  lemma ArchivePathIsShort(r: Record)
    requires Sendable(r)
    ensures |r.path| <= MAX_COPY_PATH_LEN
  {
  }

  // ---- Trees as entries ----

  /** `mode & ~umask`. */
  function Without(mode: nat, umask: nat): nat {
    if mode == 0 then 0 else (if umask % 2 == 1 then 0 else mode % 2) + 2 * Without(mode / 2, umask / 2)
  }

  /** What goes into an archive. */
  ghost predicate Ordinary(v: View) {
    v.File? || v.Dir?
  }

  /** What is made of a node: the agent's own file or directory with the
      permission bits that were sent. A directory keeps its owner's access and
      loses what the umask takes. */
  ghost function Remade(v: View, umask: nat): View {
    match v
    case File(meta, data) => File(Meta(meta.mode % 512, 0, 0), data)
    case Dir(meta) => Dir(Meta(Without(meta.mode % 64 + 448, umask), 0, 0))
    case _ => v
  }

  ghost predicate Bit(n: nat, k: nat) {
    if k == 0 then n % 2 == 1 else Bit(n / 2, k - 1)
  }

  lemma NoBits(k: nat)
    ensures !Bit(0, k)
  {
  }

  lemma {:induction false} WithoutBits(mode: nat, umask: nat, k: nat)
    ensures Bit(Without(mode, umask), k) <==> Bit(mode, k) && !Bit(umask, k)
    decreases mode, k
  {
    if mode == 0 {
      NoBits(k);
    } else if k > 0 {
      assert Without(mode, umask) / 2 == Without(mode / 2, umask / 2);
      WithoutBits(mode / 2, umask / 2, k - 1);
    }
  }

  ghost function Pow2(w: nat): nat {
    if w == 0 then 1 else 2 * Pow2(w - 1)
  }

  /** The lowest `w` bits of a number, with three more set above them. */
  lemma {:induction false} OwnerBits(high: nat, low: nat, w: nat, k: nat)
    requires low < Pow2(w)
    ensures Bit(low + 7 * Pow2(w), k) <==> k < w + 3 && (k >= w || Bit(high * Pow2(w) + low, k))
    decreases w
  {
    if w == 0 {
      assert low + 7 * Pow2(w) == 7;
      if k >= 3 {
        assert Bit(7, k) == Bit(3, k - 1) == Bit(1, k - 2) == Bit(0, k - 3);
        NoBits(k - 3);
      }
    } else {
      var half := high * Pow2(w - 1);
      assert high * Pow2(w) + low == 2 * half + low;
      if k > 0 {
        OwnerBits(high, low / 2, w - 1, k - 1);
      }
    }
  }

  /** The mode `mkdir` gives a directory: the low nine bits, its owner's access
      in any case, and not what the umask takes. */
  ghost predicate MadeMode(mode: nat, from: nat, umask: nat) {
    forall k: nat :: Bit(mode, k) <==> k < 9 && (k >= 6 || Bit(from, k)) && !Bit(umask, k)
  }

  /** A made entry beside its source: a file with the same data and permission
      bits, a directory with the bits it is made with, and nothing else. */
  ghost predicate MadeAs(from: View, to: View, umask: nat) {
    match from
    case File(m, data) => to == File(Meta(m.mode % 512, 0, 0), data)
    case Dir(m) => to.Dir? && to.meta.uid == 0 && to.meta.gid == 0 && MadeMode(to.meta.mode, m.mode, umask)
    case _ => false
  }

  lemma SixtyFour()
    ensures Pow2(6) == 64
  {
    assert Pow2(2) == 4;
    assert Pow2(4) == 2 * Pow2(3) == 16;
    assert Pow2(6) == 2 * Pow2(5) == 64;
  }

  lemma DirectoryMode(mode: nat, umask: nat)
    ensures MadeMode(Without(mode % 64 + 448, umask), mode, umask)
  {
    hide Without, Bit, Pow2;
    SixtyFour();
    var high, low := mode / 64, mode % 64;
    assert low + 7 * Pow2(6) == mode % 64 + 448 && high * Pow2(6) + low == mode;
    forall k: nat ensures Bit(Without(mode % 64 + 448, umask), k) <==> k < 9 && (k >= 6 || Bit(mode, k)) && !Bit(umask, k) {
      OwnerBits(high, low, 6, k);
      WithoutBits(mode % 64 + 448, umask, k);
    }
  }

  lemma RemadeIsMade(v: View, umask: nat)
    requires Ordinary(v)
    ensures MadeAs(v, Remade(v, umask), umask)
  {
    hide Without, MadeMode;
    if v.Dir? {
      DirectoryMode(v.meta.mode, umask);
    }
  }

  datatype Entry = Entry(path: Path, view: View)

  function RecordOf(e: Entry): Record {
    match e.view
    case File(meta, data) => Record(KIND_FILE, Join(e.path), meta.mode % 512, |data|)
    case _ => Record(KIND_DIR, Join(e.path), e.view.meta.mode % 512, 0)
  }

  const END_RECORD := Record(KIND_END, "", 0, 0)

  /** An entry that can go into an archive. */
  ghost predicate Carriable(e: Entry) {
    Ordinary(e.view) && Sendable(RecordOf(e)) && AllComponents(e.path)
  }

  /** And out of it, into a target whose own path has `room` characters. */
  ghost predicate Portable(e: Entry, room: nat) {
    Carriable(e) && HasRoom(e.path, room)
  }

  /** The target's path, a slash and the entry's own path fit the extractor's buffer. */
  ghost predicate HasRoom(p: Path, room: nat) {
    p != [] ==> room + 1 + |Join(p)| < MAX_CHILD_TEXT
  }

  function EntryBytes(e: Entry): seq<byte>
    requires ByteText(Join(e.path))
  {
    EncodeRecord(RecordOf(e)) + if e.view.File? then e.view.data else []
  }

  ghost predicate AllText(es: seq<Entry>) {
    forall i :: 0 <= i < |es| ==> ByteText(Join(es[i].path))
  }

  ghost function Packed(es: seq<Entry>): seq<byte>
    requires AllText(es)
  {
    if es == [] then [] else EntryBytes(es[0]) + Packed(es[1..])
  }

  /** Something new can be made at `p`: nothing is there, a directory is above it, and its name fits. */
  ghost predicate CanMake(made: Layer, p: Path) {
    p !in made && if p == [] then made == map[] else Parent(p) in made && made[Parent(p)].Dir? && |p[|p| - 1]| <= NAME_MAX
  }

  datatype Result = Done(made: Layer) | Failed

  /** Making the entries one after the other. */
  ghost function Build(es: seq<Entry>, made: Layer, umask: nat): Result {
    if es == [] then Done(made)
    else if !CanMake(made, es[0].path) then Failed
    else Build(es[1..], made[es[0].path := Remade(es[0].view, umask)], umask)
  }

  lemma {:induction false} BuildInTurn(a: seq<Entry>, b: seq<Entry>, made: Layer, umask: nat)
    ensures Build(a + b, made, umask) == match Build(a, made, umask) case Failed => Failed case Done(m) => Build(b, m, umask)
    decreases |a|
  {
    hide CanMake;
    if a == [] {
      assert a + b == b;
    } else {
      assert (a + b)[0] == a[0] && (a + b)[1..] == a[1..] + b;
      BuildInTurn(a[1..], b, made[a[0].path := Remade(a[0].view, umask)], umask);
    }
  }

  /** Each entry is made, and nothing else. */
  ghost predicate Makes(es: seq<Entry>, made: Layer, umask: nat) {
    && (forall i :: 0 <= i < |es| ==> es[i].path in made && MadeAs(es[i].view, made[es[i].path], umask))
    && (forall r :: r in made ==> exists i :: 0 <= i < |es| && es[i].path == r)
  }

  lemma {:induction false} BuildMakes(es: seq<Entry>, before: Layer, umask: nat)
    requires Build(es, before, umask).Done? && forall i :: 0 <= i < |es| ==> Ordinary(es[i].view)
    ensures var made := Build(es, before, umask).made;
            && (forall r :: r in before ==> r in made && made[r] == before[r])
            && (forall i :: 0 <= i < |es| ==> es[i].path in made && MadeAs(es[i].view, made[es[i].path], umask))
            && (forall r :: r in made ==> r in before || exists i :: 0 <= i < |es| && es[i].path == r)
    decreases |es|
  {
    hide Remade, MadeAs;
    if es != [] {
      var e, rest := es[0], es[1..];
      var next := before[e.path := Remade(e.view, umask)];
      RemadeIsMade(e.view, umask);
      BuildMakes(rest, next, umask);
      var made := Build(es, before, umask).made;
      assert e.path in next;
      forall r | r in made ensures r in before || exists i :: 0 <= i < |es| && es[i].path == r {
        if r !in before && r != e.path {
          var i :| 0 <= i < |rest| && rest[i].path == r;
          assert es[i + 1].path == r;
        }
      }
    }
  }

  // ---- Extraction ----

  /** `extract_copy_archive` past the magic number: each record makes a file or
      a directory, and the end record must be the end of the archive. */
  ghost function Unpack(b: seq<byte>, made: Layer, umask: nat, room: nat): Result
    decreases |b|
  {
    match ReadRecord(b)
    case None => Failed
    case Some(r, rest) =>
      var p := Split(r.path);
      if r.kind == KIND_END then if made != map[] && rest == [] then Done(made) else Failed
      else if !CanMake(made, p) || (p != [] && room + 1 + |r.path| >= MAX_CHILD_TEXT) then Failed
      else if r.kind == KIND_DIR then Unpack(rest, made[p := Remade(Dir(Meta(r.mode, 0, 0)), umask)], umask, room)
      else if r.size > |rest| then Failed
      else Unpack(rest[r.size..], made[p := Remade(File(Meta(r.mode, 0, 0), rest[..r.size]), umask)], umask, room)
  }

  lemma ModeTwice(mode: nat, umask: nat)
    ensures Without(mode % 512 % 64 + 448, umask) == Without(mode % 64 + 448, umask) && mode % 512 % 512 == mode % 512
  {
    hide Without;
    var q, r := mode / 512, mode % 512;
    assert mode == 64 * (8 * q + r / 64) + r % 64;
  }

  /** Reading one entry's bytes makes that entry. */
  lemma UnpackOne(e: Entry, tail: seq<byte>, made: Layer, umask: nat, room: nat)
    requires Portable(e, room) && CanMake(made, e.path)
    ensures Unpack(EntryBytes(e) + tail, made, umask, room) == Unpack(tail, made[e.path := Remade(e.view, umask)], umask, room)
  {
    hide EncodeRecord, ReadRecord, Split, Without;
    var r := RecordOf(e);
    SplitJoin(e.path);
    ModeTwice(e.view.meta.mode, umask);
    var data := if e.view.File? then e.view.data else [];
    var rest := data + tail;
    assert EntryBytes(e) + tail == EncodeRecord(r) + rest;
    RecordRoundTrip(r, rest);
    if e.view.File? {
      assert rest[..|data|] == data && rest[|data|..] == tail;
    } else {
      assert rest == tail;
    }
  }

  /** Unpacking packed entries makes them all, and ends where they end. */
  lemma {:induction false} UnpackAll(es: seq<Entry>, made: Layer, umask: nat, room: nat)
    requires AllText(es) && forall i :: 0 <= i < |es| ==> Portable(es[i], room)
    requires Build(es, made, umask).Done? && (es != [] || made != map[])
    ensures Unpack(Packed(es) + EncodeRecord(END_RECORD), made, umask, room) == Build(es, made, umask)
    decreases |es|
  {
    hide EncodeRecord, EntryBytes, Unpack, CanMake, Portable;
    var end := EncodeRecord(END_RECORD);
    if es == [] {
      assert Packed(es) + end == end;
      UnpackEnd(made, umask, room);
    } else {
      var made' := made[es[0].path := Remade(es[0].view, umask)];
      assert es[0].path in made';
      UnpackAll(es[1..], made', umask, room);
      UnpackOne(es[0], Packed(es[1..]) + end, made, umask, room);
      assert Packed(es) + end == EntryBytes(es[0]) + (Packed(es[1..]) + end);
    }
  }

  lemma UnpackEnd(made: Layer, umask: nat, room: nat)
    requires made != map[]
    ensures Unpack(EncodeRecord(END_RECORD), made, umask, room) == Done(made)
  {
    hide EncodeRecord, ReadRecord;
    assert Pow256(8) > 0;
    RecordRoundTrip(END_RECORD, []);
    assert EncodeRecord(END_RECORD) + [] == EncodeRecord(END_RECORD);
  }

  lemma AllTextBoth(a: seq<Entry>, b: seq<Entry>)
    requires AllText(a) && AllText(b)
    ensures AllText(a + b) && (a != [] ==> AllText(a[1..]))
  {
    hide ByteText, Join;
    forall i | 0 <= i < |a + b| ensures ByteText(Join((a + b)[i].path)) {
      assert (a + b)[i] == if i < |a| then a[i] else b[i - |a|];
    }
  }

  lemma {:induction false} PackedAppend(a: seq<Entry>, b: seq<Entry>)
    requires AllText(a) && AllText(b)
    ensures AllText(a + b) && Packed(a + b) == Packed(a) + Packed(b)
    decreases |a|
  {
    hide AllText, Packed, EntryBytes;
    AllTextBoth(a, b);
    if a == [] {
      assert a + b == b;
      PackedNone();
    } else {
      PackedAppend(a[1..], b);
      PackedFirst(a);
      PackedFirst(a + b);
      assert (a + b)[0] == a[0] && (a + b)[1..] == a[1..] + b;
    }
  }

  lemma PackedNone()
    ensures AllText([]) && Packed([]) == []
  {
  }

  lemma PackedFirst(es: seq<Entry>)
    requires AllText(es) && es != []
    ensures ByteText(Join(es[0].path)) && AllText(es[1..]) && Packed(es) == EntryBytes(es[0]) + Packed(es[1..])
  {
  }

  // ---- Emission ----

  /** The tree being copied, its top at the empty path: a file, or a directory
      with everything below it, under names that file systems have. */
  ghost predicate Rooted(src: Fs) {
    && [] in src && (forall p {:trigger Parent(p)} :: p in src && p != [] ==> IsDir(src, Parent(p)))
    && (forall p :: p in src ==> AllComponents(p) && PlainPath(p) && ByteText(Join(p)) && NoNul(Join(p)) && NameFits(p))
    && (forall p :: p in src && src[p].view.File? ==> |src[p].view.data| < Pow256(8))
  }

  ghost predicate NameFits(p: Path) {
    p != [] ==> |p[|p| - 1]| <= NAME_MAX
  }

  ghost predicate NoNul(s: string) {
    forall i :: 0 <= i < |s| ==> s[i] != 0 as char
  }

  /** What is copied from `p` down. */
  ghost function Part(src: Fs, p: Path, umask: nat): Layer {
    map r | r in src && p <= r :: Remade(src[r].view, umask)
  }

  /** What is copied of a directory once the children in `done` are. */
  ghost function PartDone(src: Fs, p: Path, done: set<Name>, umask: nat): Layer {
    map r | r in src && (r == p || (p < r && r[|p|] in done)) :: Remade(src[r].view, umask)
  }

  /** `p` can be made, and nothing is there or below. */
  ghost predicate Vacant(made: Layer, p: Path) {
    CanMake(made, p) && forall q :: q in made ==> !(p <= q)
  }

  /** Wherever `p` is vacant, making the entries adds what is copied from `p` down. */
  ghost predicate AddsPart(es: seq<Entry>, src: Fs, p: Path) {
    forall made, umask: nat :: Vacant(made, p) ==> Build(es, made, umask) == Done(made + Part(src, p, umask))
  }

  ghost predicate AddsDone(es: seq<Entry>, src: Fs, p: Path, done: set<Name>) {
    forall made, umask: nat :: Vacant(made, p) ==> Build(es, made, umask) == Done(made + PartDone(src, p, done, umask))
  }

  /** What the emitter lets through. */
  ghost predicate Emittable(src: Fs, p: Path) {
    forall r :: r in src && p <= r ==> (src[r].view.File? || src[r].view.Dir?) && TextFits(r)
  }

  ghost predicate TextFits(p: Path) {
    |Join(p)| <= MAX_COPY_PATH_LEN
  }

  ghost predicate AllPortable(es: seq<Entry>, src: Fs) {
    forall i :: 0 <= i < |es| ==> es[i].path in src && es[i].view == src[es[i].path].view && Ordinary(es[i].view) && Sendable(RecordOf(es[i]))
  }

  lemma JoinFits(src: Fs, p: Path)
    requires Rooted(src) && p in src && |Join(p)| <= MAX_COPY_PATH_LEN && Ordinary(src[p].view)
    ensures Sendable(RecordOf(Entry(p, src[p].view)))
  {
    hide Pow256, Join, Split;
    SplitJoin(p);
    assert Pow256(8) > 0;
  }

  lemma BuildOne(e: Entry, made: Layer, umask: nat)
    requires CanMake(made, e.path)
    ensures Build([e], made, umask) == Done(made[e.path := Remade(e.view, umask)])
  {
    assert [e][1..] == [];
  }

  lemma {:induction false} NothingBelowLeaf(src: Fs, p: Path, q: Path)
    requires Rooted(src) && q in src && p < q
    ensures IsDir(src, p)
    decreases |q|
  {
    var up := Parent(q);
    assert IsDir(src, up) && p <= up;
    PrefixCases(p, up);
    if p < up {
      NothingBelowLeaf(src, p, up);
    }
  }

  lemma LeafAdds(src: Fs, p: Path)
    requires Rooted(src) && p in src && !IsDir(src, p)
    ensures AddsPart([Entry(p, src[p].view)], src, p)
  {
    hide Rooted, CanMake, Build, Remade;
    var e := Entry(p, src[p].view);
    forall r | r in src && p <= r ensures r == p {
      PrefixCases(p, r);
      if p < r {
        NothingBelowLeaf(src, p, r);
      }
    }
    forall made, umask: nat | Vacant(made, p) ensures Build([e], made, umask) == Done(made + Part(src, p, umask)) {
      BuildOne(e, made, umask);
      assert made[p := Remade(e.view, umask)] == made + Part(src, p, umask);
    }
  }

  lemma DirAdds(src: Fs, p: Path)
    requires p in src
    ensures AddsDone([Entry(p, src[p].view)], src, p, {})
  {
    hide CanMake, Build, Remade;
    var e := Entry(p, src[p].view);
    forall made, umask: nat | Vacant(made, p) ensures Build([e], made, umask) == Done(made + PartDone(src, p, {}, umask)) {
      BuildOne(e, made, umask);
      assert made[p := Remade(e.view, umask)] == made + PartDone(src, p, {}, umask);
    }
  }

  lemma ChildVacant(src: Fs, p: Path, done: set<Name>, n: Name, made: Layer, umask: nat)
    requires IsDir(src, p) && n !in done && Vacant(made, p) && |n| <= NAME_MAX
    ensures Vacant(made + PartDone(src, p, done, umask), p + [n])
  {
    var m, child := made + PartDone(src, p, done, umask), p + [n];
    assert Parent(child) == p && p in m && m[p].Dir?;
    forall q | q in m ensures !(child <= q) {
      InBranch(p, n, q);
    }
    assert child <= child;
  }

  lemma InBranch(p: Path, n: Name, q: Path)
    ensures p + [n] <= q <==> p < q && q[|p|] == n
  {
    if p < q && q[|p|] == n {
      assert q[..|p| + 1] == p + [n];
    }
  }

  lemma ChildPart(src: Fs, p: Path, done: set<Name>, n: Name, made: Layer, umask: nat)
    ensures made + PartDone(src, p, done, umask) + Part(src, p + [n], umask) == made + PartDone(src, p, done + {n}, umask)
  {
    hide Remade;
    var a, b, c := PartDone(src, p, done, umask), Part(src, p + [n], umask), PartDone(src, p, done + {n}, umask);
    forall r ensures r in a || r in b <==> r in c {
      InBranch(p, n, r);
    }
    assert forall r :: r in a ==> a[r] == Remade(src[r].view, umask);
    assert forall r :: r in b ==> b[r] == Remade(src[r].view, umask);
    assert forall r :: r in c ==> c[r] == Remade(src[r].view, umask);
    hide Part, PartDone;
    assert a + b == c;
    assert made + a + b == made + (a + b);
  }

  lemma ChildAdds(src: Fs, p: Path, done: set<Name>, n: Name, es: seq<Entry>, more: seq<Entry>)
    requires IsDir(src, p) && n !in done && |n| <= NAME_MAX && AddsDone(es, src, p, done) && AddsPart(more, src, p + [n])
    ensures AddsDone(es + more, src, p, done + {n})
  {
    hide CanMake, Build, Part, PartDone, Vacant;
    forall made, umask: nat | Vacant(made, p) ensures Build(es + more, made, umask) == Done(made + PartDone(src, p, done + {n}, umask)) {
      BuildInTurn(es, more, made, umask);
      ChildVacant(src, p, done, n, made, umask);
      ChildPart(src, p, done, n, made, umask);
    }
  }

  lemma AllAdded(src: Fs, p: Path, names: set<Name>, es: seq<Entry>)
    requires Rooted(src) && p in src && AddsDone(es, src, p, names)
    requires forall n {:trigger p + [n]} :: p + [n] in src ==> n in names
    ensures AddsPart(es, src, p)
  {
    hide CanMake, Build, Remade, Rooted;
    forall r | r in src && p < r ensures r[|p|] in names {
      ChildOnTheWay(src, p, r);
    }
    forall r | r in src && p <= r ensures r == p || p < r {
      PrefixCases(p, r);
    }
    forall umask: nat ensures PartDone(src, p, names, umask) == Part(src, p, umask) {
      assert p <= p;
    }
  }

  lemma {:induction false} ChildOnTheWay(src: Fs, p: Path, r: Path)
    requires Rooted(src) && r in src && p < r
    ensures p + [r[|p|]] in src && p + [r[|p|]] <= r
    decreases |r|
  {
    if |r| == |p| + 1 {
      assert r == p + [r[|p|]];
    } else {
      assert IsDir(src, Parent(r)) && p < Parent(r);
      ChildOnTheWay(src, p, Parent(r));
    }
  }

  /** What has been emitted of a directory: itself and the children in `done`. */
  ghost predicate Emitting(src: Fs, p: Path, done: set<Name>, es: seq<Entry>, out: seq<byte>) {
    && AllText(es) && AllPortable(es, src) && out == Packed(es) && AddsDone(es, src, p, done)
    && forall n {:trigger p + [n]} :: n in done ==> p + [n] in src && Emittable(src, p + [n])
  }

  /** What has been emitted from `p` down. */
  ghost predicate Emitted(src: Fs, p: Path, es: seq<Entry>, out: seq<byte>) {
    AllText(es) && AllPortable(es, src) && out == Packed(es) && AddsPart(es, src, p)
  }

  lemma OneText(src: Fs, p: Path)
    requires Rooted(src) && p in src
    ensures ByteText(Join(p))
  {
  }

  lemma OnePacked(e: Entry)
    requires ByteText(Join(e.path))
    ensures AllText([e]) && Packed([e]) == EntryBytes(e)
  {
    hide EntryBytes, Join;
    assert [e][1..] == [];
    assert Packed([e]) == EntryBytes(e) + Packed([]);
  }

  lemma OneEntry(src: Fs, p: Path)
    requires Rooted(src) && p in src && TextFits(p) && Ordinary(src[p].view)
    ensures ByteText(Join(p))
    ensures var e := Entry(p, src[p].view);
            if IsDir(src, p) then Emitting(src, p, {}, [e], EntryBytes(e)) else Emitted(src, p, [e], EntryBytes(e)) && Emittable(src, p)
  {
    hide EntryBytes, Join, AddsDone, AddsPart, Rooted, Sendable, AllText;
    OneText(src, p);
    var e := Entry(p, src[p].view);
    OnePacked(e);
    JoinFits(src, p);
    if IsDir(src, p) {
      DirAdds(src, p);
    } else {
      LeafAdds(src, p);
      forall r | r in src && p <= r ensures r == p {
        PrefixCases(p, r);
        if p < r {
          NothingBelowLeaf(src, p, r);
        }
      }
    }
  }

  lemma ChildEmitted(src: Fs, p: Path, done: set<Name>, n: Name, es: seq<Entry>, out: seq<byte>, more: seq<Entry>, out': seq<byte>)
    requires IsDir(src, p) && n !in done && |n| <= NAME_MAX && Emitting(src, p, done, es, out)
    requires p + [n] in src && Emitted(src, p + [n], more, out') && Emittable(src, p + [n])
    ensures Emitting(src, p, done + {n}, es + more, out + out')
  {
    hide AddsDone, AddsPart, Sendable, AllText, Packed, Emittable, RecordOf;
    PackedAppend(es, more);
    ChildAdds(src, p, done, n, es, more);
    forall i | 0 <= i < |es + more| ensures (es + more)[i] == if i < |es| then es[i] else more[i - |es|] {
    }
  }

  lemma AllEmitted(src: Fs, p: Path, names: set<Name>, es: seq<Entry>, out: seq<byte>)
    requires Rooted(src) && IsDir(src, p) && TextFits(p) && Emitting(src, p, names, es, out)
    requires forall n {:trigger p + [n]} :: p + [n] in src ==> n in names
    ensures Emitted(src, p, es, out) && Emittable(src, p)
  {
    hide AddsDone, AddsPart, AllPortable, AllText, Packed, Rooted, TextFits;
    AllAdded(src, p, names, es);
    forall r | r in src && p <= r ensures Ordinary(src[r].view) && TextFits(r) {
      PrefixCases(p, r);
      if p < r {
        ChildOnTheWay(src, p, r);
      }
    }
  }

  lemma EmittableBelow(src: Fs, p: Path, n: Name)
    requires p + [n] in src
    ensures Emittable(src, p) ==> Emittable(src, p + [n]) && TextFits(p + [n])
  {
    hide TextFits;
    assert p + [n] <= p + [n] && p <= p + [n];
    forall r | r in src && p + [n] <= r ensures p <= r {
      InBranch(p, n, r);
    }
  }

  /** `emit_copy_entry`: a record for each entry, a parent before its children,
      whatever order directories list them in. It gives up exactly when some
      entry is neither file nor directory or has too long a path. The copied
      path itself, of `baseLen` characters, always leaves room for the entries. */
  method EmitEntry(src: Fs, p: Path, baseLen: nat) returns (ok: bool, out: seq<byte>, ghost es: seq<Entry>)
    requires Rooted(src) && p in src && TextFits(p) && baseLen < MAX_COPY_FULL_PATH_LEN
    ensures ok <==> Emittable(src, p)
    ensures ok ==> Emitted(src, p, es, out)
    decreases AtOrBelow(src, p)
  {
    hide Rooted, Emitting, Emitted, EntryBytes, TextFits;
    es, out := [], [];
    var view := src[p].view;
    assert p <= p;
    if !view.File? && !view.Dir? {
      return false, out, es;
    }
    OneEntry(src, p);
    out, es := EntryBytes(Entry(p, view)), [Entry(p, view)];
    if !view.Dir? {
      return true, out, es;
    }
    var names := ListDirectory(src, p);
    var left := names;
    ghost var done: set<Name> := {};
    while left != {}
      invariant left + done == names && left !! done && Emitting(src, p, done, es, out)
      decreases left
    {
      var n :| n in left;
      left := left - {n};
      EmittableBelow(src, p, n);
      TextBound(p + [n]);
      if |Join(p + [n])| > MAX_COPY_PATH_LEN || baseLen + 1 + |Join(p + [n])| >= MAX_CHILD_TEXT {
        return false, out, es;
      }
      var emitted, more;
      ghost var entries;
      SmallerBelow(src, p, n);
      emitted, more, entries := EmitEntry(src, p + [n], baseLen);
      if !emitted {
        return false, out, es;
      }
      ChildNameFits(src, p, n);
      ChildEmitted(src, p, done, n, es, out, entries, more);
      out, es, done := out + more, es + entries, done + {n};
    }
    AllEmitted(src, p, done, es, out);
    ok := true;
  }

  lemma ChildNameFits(src: Fs, p: Path, n: Name)
    requires Rooted(src) && p + [n] in src
    ensures |n| <= NAME_MAX
  {
    assert (p + [n])[|p|] == n;
  }

  lemma TextBound(p: Path)
    ensures TextFits(p) <==> |Join(p)| <= MAX_COPY_PATH_LEN
  {
  }

  lemma SmallerBelow(src: Fs, p: Path, n: Name)
    requires p in src
    ensures AtOrBelow(src, p + [n]) < AtOrBelow(src, p)
  {
    assert p in AtOrBelow(src, p) && p !in AtOrBelow(src, p + [n]);
    forall q | q in AtOrBelow(src, p + [n]) ensures q in AtOrBelow(src, p) {
      InBranch(p, n, q);
    }
  }

  /** `copy_out_file`: the magic number, the tree and the end. */
  method CopyOut(src: Fs, baseLen: nat) returns (ok: bool, archive: seq<byte>, ghost es: seq<Entry>)
    requires Rooted(src) && baseLen < MAX_COPY_FULL_PATH_LEN
    ensures ok <==> Emittable(src, [])
    ensures ok ==> AllText(es) && Emitted(src, [], es, Packed(es)) && archive == ARCHIVE_MAGIC + Packed(es) + EncodeRecord(END_RECORD)
  {
    hide Rooted, Emitted, Emittable, EncodeRecord, Packed;
    TopFits();
    RootedTop(src);
    var tree;
    ok, tree, es := EmitEntry(src, [], baseLen);
    if ok {
      EmittedIsPacked(src, es, tree);
    }
    archive := ARCHIVE_MAGIC + tree + EncodeRecord(END_RECORD);
  }

  lemma TopFits()
    ensures TextFits([])
  {
  }

  lemma RootedTop(src: Fs)
    requires Rooted(src)
    ensures [] in src
  {
  }

  lemma EmittedIsPacked(src: Fs, es: seq<Entry>, out: seq<byte>)
    requires Emitted(src, [], es, out)
    ensures AllText(es) && out == Packed(es)
  {
  }

  // ---- What an archive is ----

  lemma BytesRoundTrip(b: seq<byte>)
    ensures ByteText(ToText(b)) && ToBytes(ToText(b)) == b
  {
  }

  /** A record that is read is one that could have been sent, and its bytes are what was sent. */
  lemma RecordReadIsSent(b: seq<byte>)
    requires ReadRecord(b).Some?
    ensures var r := ReadRecord(b).value;
            Sendable(r) && b == EncodeRecord(r) + ReadRecord(b).rest
  {
    hide WriteLe, ReadLe, Pow256, ToBytes, ToText, ArchivePath;
    var len := ReadLe(b[1..3]);
    var text := b[RECORD_HEADER_LEN..RECORD_HEADER_LEN + len];
    BytesRoundTrip(text);
    Widths();
    WriteReadLe(b[1..3]);
    WriteReadLe(b[3..7]);
    WriteReadLe(b[7..15]);
    NoPath();
    var r := ReadRecord(b).value;
    assert b == [b[0]] + b[1..3] + b[3..7] + b[7..15] + [b[15]] + text + b[RECORD_HEADER_LEN + len..];
    assert EncodeRecord(r) == [b[0]] + b[1..3] + b[3..7] + b[7..15] + [b[15]] + text;
  }

  lemma NoPath()
    ensures ByteText("")
  {
  }

  /** The entry a record and the data after it stand for. */
  ghost function EntryOf(r: Record, data: seq<byte>): Entry {
    Entry(Split(r.path), if r.kind == KIND_FILE then File(Meta(r.mode, 0, 0), data) else Dir(Meta(r.mode, 0, 0)))
  }

  lemma EntryIsRecord(r: Record, data: seq<byte>)
    requires Sendable(r) && r.kind != KIND_END && |data| == r.size
    ensures Carriable(EntryOf(r, data)) && RecordOf(EntryOf(r, data)) == r && ByteText(Join(EntryOf(r, data).path))
    ensures EntryBytes(EntryOf(r, data)) == EncodeRecord(r) + data
  {
    hide Split, Join, EncodeRecord, Pow256;
    assert Join(Split(r.path)) == r.path;
    if r.kind == KIND_DIR {
      assert EncodeRecord(r) + [] == EncodeRecord(r);
    }
  }

  /** The archive holds the entries, and making them in a target of `room` characters gives `made`. */
  ghost predicate Yields(b: seq<byte>, es: seq<Entry>, before: Layer, umask: nat, room: nat, made: Layer) {
    && AllText(es) && (forall i :: 0 <= i < |es| ==> Portable(es[i], room))
    && b == Packed(es) + EncodeRecord(END_RECORD) && Build(es, before, umask) == Done(made) && made != map[]
  }

  /** What is unpacked is the entries the bytes hold. */
  lemma {:induction false} UnpackedIsHeld(b: seq<byte>, before: Layer, umask: nat, room: nat) returns (es: seq<Entry>)
    requires Unpack(b, before, umask, room).Done?
    ensures Yields(b, es, before, umask, room, Unpack(b, before, umask, room).made)
    decreases |b|
  {
    hide ReadRecord, EncodeRecord, Split, CanMake, Sendable;
    var r, rest := ReadRecord(b).value, ReadRecord(b).rest;
    RecordReadIsSent(b);
    if r.kind == KIND_END {
      EndIsEnd(r);
      es := [];
      assert Packed(es) + EncodeRecord(END_RECORD) == EncodeRecord(r) + [];
    } else {
      DirHasNoData(r);
      var data := if r.kind == KIND_DIR then [] else rest[..r.size];
      var tail := if r.kind == KIND_DIR then rest else rest[r.size..];
      assert rest == data + tail;
      var e := EntryOf(r, data);
      EntryIsRecord(r, data);
      var next := before[e.path := Remade(e.view, umask)];
      var more := UnpackedIsHeld(tail, next, umask, room);
      es := [e] + more;
      HeldBefore(e, more, tail, before, umask, room, Unpack(b, before, umask, room).made);
      assert b == EntryBytes(e) + tail;
    }
  }

  lemma EndIsEnd(r: Record)
    requires Sendable(r) && r.kind == KIND_END
    ensures r == END_RECORD
  {
  }

  lemma DirHasNoData(r: Record)
    requires Sendable(r) && r.kind != KIND_END
    ensures r.kind == KIND_FILE || (r.kind == KIND_DIR && r.size == 0)
  {
  }

  lemma HeldBefore(e: Entry, more: seq<Entry>, tail: seq<byte>, before: Layer, umask: nat, room: nat, made: Layer)
    requires Portable(e, room) && ByteText(Join(e.path)) && CanMake(before, e.path)
    requires Yields(tail, more, before[e.path := Remade(e.view, umask)], umask, room, made)
    ensures Yields(EntryBytes(e) + tail, [e] + more, before, umask, room, made)
  {
    hide EntryBytes, Portable, CanMake, Remade, EncodeRecord, ByteText, Join;
    var es := [e] + more;
    forall i | 0 <= i < |es| ensures es[i] == if i == 0 then e else more[i - 1] {
    }
    assert es[1..] == more;
    PackedFirst(es);
    NoPath();
    assert EntryBytes(e) + tail == Packed(es) + EncodeRecord(END_RECORD);
  }

  /** And the other way round. */
  lemma HeldIsUnpacked(b: seq<byte>, es: seq<Entry>, umask: nat, room: nat, made: Layer)
    requires Yields(b, es, map[], umask, room, made)
    ensures Unpack(b, map[], umask, room) == Done(made)
  {
    hide EncodeRecord, Packed, Unpack, Portable, AllText;
    UnpackAll(es, map[], umask, room);
  }

  // ---- The round trip ----

  /** Any entry that can be sent has room in a target whose path fits its buffer. */
  lemma SentHasRoom(e: Entry, room: nat)
    requires Carriable(e) && room <= MAX_COPY_FULL_PATH_LEN
    ensures Portable(e, room)
  {
    ArchivePathIsShort(RecordOf(e));
  }

  /** The same tree: each file with its data, each directory, and nothing else. */
  ghost predicate Reproduces(src: Fs, made: Layer, umask: nat) {
    made.Keys == src.Keys && forall r :: r in src ==> MadeAs(src[r].view, made[r], umask)
  }

  lemma YieldsMakes(b: seq<byte>, es: seq<Entry>, umask: nat, room: nat, made: Layer)
    requires Yields(b, es, map[], umask, room, made)
    ensures Makes(es, made, umask)
  {
    hide MadeAs, Build, Packed, EncodeRecord, AllText, Sendable, AllComponents, HasRoom;
    BuildMakes(es, map[], umask);
  }

  lemma AllReproduced(src: Fs, es: seq<Entry>, made: Layer, umask: nat)
    requires AllPortable(es, src) && Makes(es, made, umask) && made.Keys == src.Keys
    ensures Reproduces(src, made, umask)
  {
    hide MadeAs, Sendable, RecordOf;
    forall r | r in src ensures MadeAs(src[r].view, made[r], umask) {
      assert r in made;
    }
  }

  /** What was emitted is extracted as the same tree. */
  lemma RoundTrip(src: Fs, es: seq<Entry>, umask: nat, room: nat) returns (made: Layer)
    requires Rooted(src) && AllText(es) && Emitted(src, [], es, Packed(es)) && room <= MAX_COPY_FULL_PATH_LEN
    ensures Yields(Packed(es) + EncodeRecord(END_RECORD), es, map[], umask, room, made) && Reproduces(src, made, umask)
  {
    hide EncodeRecord, Unpack, AllText, Packed, HasRoom, Sendable, Rooted, RecordOf, AllComponents, MadeAs, Makes, Reproduces;
    RootedTop(src);
    RootedComponents(src);
    assert Vacant(map[], []);
    made := Part(src, [], umask);
    assert Build(es, map[], umask) == Done(map[] + Part(src, [], umask));
    assert map[] + Part(src, [], umask) == Part(src, [], umask);
    assert [] in Part(src, [], umask);
    forall i | 0 <= i < |es| ensures Portable(es[i], room) {
      SentHasRoom(es[i], room);
    }
    YieldsMakes(Packed(es) + EncodeRecord(END_RECORD), es, umask, room, made);
    AllReproduced(src, es, made, umask);
  }

  /** An archive yields one tree at most. */
  lemma YieldsOne(b: seq<byte>, es: seq<Entry>, m: Layer, es': seq<Entry>, m': Layer, umask: nat, room: nat)
    requires Yields(b, es, map[], umask, room, m) && Yields(b, es', map[], umask, room, m')
    ensures m == m'
  {
    hide Yields, Unpack;
    HeldIsUnpacked(b, es, umask, room, m);
    HeldIsUnpacked(b, es', umask, room, m');
  }

  lemma RootedComponents(src: Fs)
    requires Rooted(src)
    ensures forall p :: p in src ==> AllComponents(p)
  {
  }
}
