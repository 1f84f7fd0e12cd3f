/** Where a copied-in tree is made, moved and removed again: the extraction,
    the publishing and `remove_tree` of guest/minimal-initrd/copy.c on the guest's tree. */
module CopyTarget {
  import opened Bytes
  import opened Tree
  import opened PathText
  import opened ConfinedWalk
  import opened GuestPaths
  import opened Archive
  import LinkCopy

  /** Nothing is at or below `x`. */
  ghost predicate Vacated(fs: Fs, x: Path) {
    forall q :: q in fs ==> !(x <= q)
  }

  /** The tree with `made` at `x`, and everything else as it was. */
  ghost predicate Laid(fs: Fs, x: Path, made: Layer, fs': Fs) {
    && Over(fs, fs')
    && (forall q :: q in fs' && q !in fs ==> x <= q && q[|x|..] in made)
    && (forall r :: r in made ==> x + r in fs' && fs'[x + r].view == made[r])
  }

  /** What is new has inodes that were not there. */
  ghost predicate NewFrom(fs: Fs, fs': Fs, first: nat) {
    forall q :: q in fs' && q !in fs ==> fs'[q].id >= first
  }

  lemma LaidHas(fs: Fs, x: Path, made: Layer, fs': Fs, r: Path)
    requires Vacated(fs, x) && Laid(fs, x, made, fs')
    ensures x + r in fs' <==> r in made
  {
    assert (x + r)[|x|..] == r && x <= x + r;
  }

  /** What is being extracted: `made` of it lies at `x`. */
  ghost predicate Extracting(fs: Fs, first: nat, x: Path, made: Layer, fs': Fs) {
    && Vacated(fs, x) && Laid(fs, x, made, fs') && NewFrom(fs, fs', first) && WellFormed(fs')
    && (made != map[] ==> [] in made)
    && (forall r :: r in made ==> Ordinary(made[r]) && AllComponents(r) && PlainPath(r) && |Join(r)| <= MAX_COPY_PATH_LEN && NameFits(r))
  }

  lemma ExtractedUnlinked(fs: Fs, first: nat, x: Path, made: Layer, fs': Fs)
    requires Extracting(fs, first, x, made, fs')
    ensures Unlinked(fs', x)
  {
    forall q | q in fs' && x <= q ensures !fs'[q].view.Link? {
      assert q == x + q[|x|..] && q !in fs;
    }
  }

  lemma NothingExtracted(fs: Fs, first: nat, x: Path)
    requires Vacated(fs, x) && WellFormed(fs)
    ensures Extracting(fs, first, x, map[], fs)
  {
  }

  lemma OneExtracted(fs: Fs, first: nat, x: Path, made: Layer, fs': Fs, r: Path, node: Node)
    requires Extracting(fs, first, x, made, fs') && x != [] && IsDir(fs, Parent(x)) && CanMake(made, r) && node.id >= first && Ordinary(node.view)
    requires AllComponents(r) && PlainPath(r) && |Join(r)| <= MAX_COPY_PATH_LEN
    ensures Extracting(fs, first, x, made[r := node.view], fs'[x + r := node])
  {
    hide WellFormed, Join, AllComponents, PlainPath;
    var made', fs'' := made[r := node.view], fs'[x + r := node];
    LaidHas(fs, x, made, fs', r);
    assert x <= x + r && x + r !in fs && (x + r)[|x|..] == r;
    forall s | s in made' ensures x + s in fs'' && fs''[x + s].view == made'[s] {
      assert s != r ==> (x + s)[|x|..] == s != r;
    }
    StaysWellFormed(fs, x, made, fs', r, node);
  }

  lemma StaysWellFormed(fs: Fs, x: Path, made: Layer, fs': Fs, r: Path, node: Node)
    requires Vacated(fs, x) && Laid(fs, x, made, fs') && WellFormed(fs') && x != [] && IsDir(fs, Parent(x)) && CanMake(made, r)
    ensures WellFormed(fs'[x + r := node])
  {
    var at := x + r;
    LaidHas(fs, x, made, fs', r);
    if r == [] {
      assert at == x;
    } else {
      assert Parent(at) == x + Parent(r);
    }
    var fs'' := fs'[at := node];
    forall q | q in fs'' && q != [] ensures IsDir(fs'', Parent(q)) {
      assert q != at ==> IsDir(fs', Parent(q));
    }
  }

  /** A call on a path below the target works exactly when something can be made there. */
  lemma MakesThere(fs: Fs, first: nat, p: Path, x: Path, made: Layer, fs': Fs, r: Path)
    requires p != [] && PlainPath(p) && Where(fs, p) == At(x) && Extracting(fs, first, x, made, fs') && PlainPath(r)
    ensures p + r != []
    ensures var w := Where(fs', p + r);
            (w.At? && w.path !in fs' <==> CanMake(made, r)) && (w.At? ==> w.path == x + r)
  {
    hide WellFormed, Where, PlainPath, AllComponents, Join, Ordinary;
    ExtractedUnlinked(fs, first, x, made, fs');
    WhereInside(fs, fs', p, x, r);
    LaidHas(fs, x, made, fs', r);
    if r == [] {
      assert x + r == x;
    } else {
      LaidHas(fs, x, made, fs', Parent(r));
    }
  }

  /** The text of an entry's path below the target. */
  lemma ChildText(p: Path, path: string)
    requires ArchivePath(path) && AllComponents(p)
    ensures var r := Split(path);
            AllComponents(p + r) && PlainPath(r) && AllComponents(r) && |Join(r)| <= MAX_COPY_PATH_LEN && (path == "" <==> r == [])
            && Spelled(p + r) == if path == "" then Spelled(p) else Spelled(p) + "/" + path
  {
    hide Split, Join, Spelled;
    JoinNothing();
    var r := Split(path);
    SpelledAppend(p, r);
    if r != [] {
      SpelledIsJoin(r);
    } else {
      assert p + r == p;
    }
  }

  /** `create_copy_archive_file` and `create_copy_archive_dir` for one record:
      `data` is what the archive has left, and nothing is there if it is too little. */
  method MakeEntry(fs: Fs, nextId: nat, text: string, record: Record, data: seq<byte>, umask: nat,
                   ghost base: Fs, ghost first: nat, ghost p: Path, ghost x: Path, ghost made: Layer)
    returns (ok: bool, fs': Fs, ghost made': Layer)
    requires AllComponents(p) && PlainPath(p) && p != [] && text == Spelled(p) && Where(base, p) == At(x) && x != [] && IsDir(base, Parent(x))
    requires Extracting(base, first, x, made, fs) && first <= nextId && ArchivePath(record.path) && (record.kind == KIND_DIR || record.kind == KIND_FILE)
    ensures Extracting(base, first, x, made', fs')
    ensures var r := Split(record.path);
            && (ok <==> CanMake(made, r) && (r != [] ==> |text| + 1 + |record.path| < MAX_CHILD_TEXT) && (record.kind == KIND_FILE ==> record.size <= |data|))
            && made' == if !ok then made
                        else if record.kind == KIND_DIR then made[r := Remade(Dir(Meta(record.mode, 0, 0)), umask)]
                        else made[r := Remade(File(Meta(record.mode, 0, 0), data[..record.size]), umask)]
    ensures !ok ==> fs' == fs
  {
    hide Where, Split, Spelled, Extracting, CanMake, PlainPath, AllComponents, Join, ArchivePath;
    fs', made' := fs, made;
    ghost var r := Split(record.path);
    ChildText(p, record.path);
    var child := if record.path == "" then text else text + "/" + record.path;
    if record.path != "" && |child| >= MAX_CHILD_TEXT {
      return false, fs', made';
    }
    MakesThere(base, first, p, x, made, fs, r);
    LocateSpelled(fs, p + r);
    var at := Locate(fs, child);
    if at.Fails? || at.path in fs {
      return false, fs', made';
    }
    if record.kind == KIND_FILE && record.size > |data| {
      return false, fs', made';
    }
    var view := if record.kind == KIND_DIR then Dir(Meta(Without(record.mode % 64 + 448, umask), 0, 0))
                else File(Meta(record.mode % 512, 0, 0), data[..record.size]);
    var node := Node(nextId, view);
    OneExtracted(base, first, x, made, fs, r, node);
    ok, fs', made' := true, fs[at.path := node], made[r := view];
  }

  /** `extract_copy_archive`, in the guest's tree: what it makes at the target is
      what the archive holds, or some of it when it fails. */
  method ExtractInto(fs: Fs, nextId: nat, text: string, archive: seq<byte>, umask: nat, ghost p: Path, ghost x: Path)
    returns (ok: bool, fs': Fs, nextId': nat, ghost made: Layer)
    requires AllComponents(p) && PlainPath(p) && p != [] && text == Spelled(p) && Where(fs, p) == At(x) && x != [] && IsDir(fs, Parent(x))
    requires WellFormed(fs) && Vacated(fs, x)
    ensures Extracting(fs, nextId, x, made, fs') && nextId <= nextId'
    ensures ok ==> ARCHIVE_MAGIC <= archive && exists es :: Yields(archive[|ARCHIVE_MAGIC|..], es, map[], umask, |text|, made) && Makes(es, made, umask)
    ensures !ok ==> !(ARCHIVE_MAGIC <= archive) || !exists es, m :: Yields(archive[|ARCHIVE_MAGIC|..], es, map[], umask, |text|, m)
  {
    hide Where, Spelled, Extracting, WellFormed, Yields, Unpack, PlainPath, AllComponents, Vacated, Makes;
    NothingExtracted(fs, nextId, x);
    ok, fs', nextId', made := false, fs, nextId, map[];
    if !(ARCHIVE_MAGIC <= archive) {
      return;
    }
    ghost var body := archive[|ARCHIVE_MAGIC|..];
    ok, fs', nextId', made := ExtractRecords(fs, nextId, text, archive[|ARCHIVE_MAGIC|..], umask, p, x);
    if ok {
      ghost var es := UnpackedIsHeld(body, map[], umask, |text|);
      YieldsMakes(body, es, umask, |text|, made);
    } else if exists es, m :: Yields(body, es, map[], umask, |text|, m) {
      ghost var es, m :| Yields(body, es, map[], umask, |text|, m);
      HeldIsUnpacked(body, es, umask, |text|, m);
    }
  }

  /** Its loop over the records. */
  method ExtractRecords(fs: Fs, nextId: nat, text: string, body: seq<byte>, umask: nat, ghost p: Path, ghost x: Path)
    returns (ok: bool, fs': Fs, nextId': nat, ghost made: Layer)
    requires AllComponents(p) && PlainPath(p) && p != [] && text == Spelled(p) && Where(fs, p) == At(x) && x != [] && IsDir(fs, Parent(x))
    requires WellFormed(fs) && Vacated(fs, x)
    ensures Extracting(fs, nextId, x, made, fs') && nextId <= nextId'
    ensures Unpack(body, map[], umask, |text|) == if ok then Result.Done(made) else Failed
  {
    hide Where, Spelled, Extracting, WellFormed, PlainPath, AllComponents, Vacated, ReadRecord, CanMake, Split, Remade, ArchivePath;
    NothingExtracted(fs, nextId, x);
    fs', nextId', made := fs, nextId, map[];
    var rest, begun := body, false;
    while true
      invariant Extracting(fs, nextId, x, made, fs') && nextId <= nextId' && (begun <==> made != map[])
      invariant Unpack(body, map[], umask, |text|) == Unpack(rest, made, umask, |text|)
      decreases |rest|
    {
      var next := ReadRecord(rest);
      if next.None? {
        ok := false;
        return;
      }
      var record := next.value;
      RecordShape(rest);
      rest := next.rest;
      if record.kind == KIND_END {
        ok := begun && rest == [];
        return;
      }
      ok, fs', made := MakeEntry(fs', nextId', text, record, rest, umask, fs, nextId, p, x, made);
      if !ok {
        return;
      }
      begun, nextId' := true, nextId' + 1;
      if record.kind == KIND_FILE {
        rest := rest[record.size..];
      }
    }
  }

  lemma RecordShape(b: seq<byte>)
    requires ReadRecord(b).Some?
    ensures var r := ReadRecord(b).value;
            r.kind != KIND_END ==> (r.kind == KIND_DIR || r.kind == KIND_FILE) && ArchivePath(r.path) && (r.path == "" <==> Split(r.path) == [])
  {
    hide ArchivePath, Split, ReadLe;
    if ReadRecord(b).value.kind != KIND_END {
      EmptyPath(ReadRecord(b).value.path);
    }
  }

  lemma EmptyPath(path: string)
    requires ArchivePath(path)
    ensures path == "" <==> Split(path) == []
  {
    hide Split;
    JoinNothing();
  }

  // ---- Removing ----

  /** What `remove_tree` can spell and list: plain names, and paths that fit its buffer. */
  ghost predicate Removable(fs: Fs, p: Path, x: Path) {
    forall q :: q in fs && x <= q ==> FitsBelow(p, q[|x|..])
  }

  ghost predicate FitsBelow(p: Path, r: Path) {
    AllComponents(r) && PlainPath(r) && NameFits(r) && |Spelled(p + r)| < MAX_CHILD_TEXT
  }

  /** Where a removal stands: below the place `x` that path `p` names in the tree before. */
  ghost predicate Removing(base: Fs, p: Path, x: Path, fs: Fs) {
    && AllComponents(p) && PlainPath(p) && p != [] && x != [] && Where(base, p) == At(x) && Vacated(base, x)
    && Over(base, fs) && WellFormed(fs) && Unlinked(fs, x) && Removable(fs, p, x)
  }

  lemma RemovingLess(base: Fs, p: Path, x: Path, fs: Fs, fs': Fs)
    requires Removing(base, p, x, fs) && WellFormed(fs') && (forall q :: q in fs' ==> q in fs && fs'[q] == fs[q]) && (forall q :: q in fs && !(x <= q) ==> q in fs')
    ensures Removing(base, p, x, fs')
  {
    hide WellFormed, Where, Spelled, AllComponents, PlainPath, NameFits;
  }

  lemma FoundBelow(base: Fs, p: Path, x: Path, fs: Fs, r: Path)
    requires Removing(base, p, x, fs) && x + r in fs
    ensures AllComponents(p + r) && p + r != [] && Locate(fs, Spelled(p + r)) == At(x + r) && |Spelled(p + r)| < MAX_CHILD_TEXT && PlainPath(r)
  {
    hide Where, WellFormed, Spelled, Locate, Unlinked;
    assert (x + r)[|x|..] == r && x <= x + r;
    WhereInside(base, fs, p, x, r);
    LocateSpelled(fs, p + r);
    if r != [] {
      assert Parent(x + r) == x + Parent(r);
      ParentIsDir(fs, x + r);
    } else {
      assert x + r == x;
    }
  }

  lemma ParentIsDir(fs: Fs, q: Path)
    requires WellFormed(fs) && q in fs && q != []
    ensures IsDir(fs, Parent(q))
  {
  }

  /** `remove_tree`: everything at the path goes, and nothing else. */
  method RemoveTree(fs: Fs, text: string, ghost base: Fs, ghost p: Path, ghost x: Path, ghost r: Path) returns (ok: bool, fs': Fs)
    requires Removing(base, p, x, fs) && x + r in fs && text == Spelled(p + r)
    ensures ok && fs' == LinkCopy.Without(fs, x + r)
    decreases AtOrBelow(fs, x + r)
  {
    hide Removing, Locate, WellFormed, Spelled, AtOrBelow;
    FoundBelow(base, p, x, fs, r);
    RemovingParts(base, p, x, fs);
    var at := Locate(fs, text).path;
    if !fs[at].view.Dir? {
      LinkCopy.OnlyItself(fs, x + r);
      return true, fs - {at};
    }
    var names := ListDirectory(fs, at);
    ghost var done: set<Name> := {};
    ok, fs' := true, fs;
    while names != {}
      invariant ok && names !! done && forall n {:trigger at + [n]} :: at + [n] in fs <==> n in names || n in done
      invariant fs' == LinkCopy.WithoutChildren(fs, at, done) && WellFormed(fs')
      decreases names
    {
      var n :| n in names;
      assert at + [n] in fs;
      ok, fs' := RemoveChild(fs', text, n, fs, at, base, p, x, r, done);
      names, done := names - {n}, done + {n};
    }
    LinkCopy.AllChildren(fs, at, done);
    fs' := fs' - {at};
  }

  lemma RemovingParts(base: Fs, p: Path, x: Path, fs: Fs)
    requires Removing(base, p, x, fs)
    ensures WellFormed(fs) && x != []
  {
  }

  /** One turn of its loop. */
  method RemoveChild(left: Fs, text: string, n: Name, ghost fs: Fs, ghost at: Path, ghost base: Fs, ghost p: Path, ghost x: Path, ghost r: Path, ghost done: set<Name>)
    returns (ok: bool, left': Fs)
    requires Removing(base, p, x, fs) && at == x + r && at in fs && text == Spelled(p + r) && at + [n] in fs && n !in done
    requires left == LinkCopy.WithoutChildren(fs, at, done) && WellFormed(left)
    ensures ok && left' == LinkCopy.WithoutChildren(fs, at, done + {n}) && WellFormed(left')
    decreases AtOrBelow(fs, x + r), 0
  {
    hide Removing, WellFormed, AtOrBelow, Locate, Spelled;
    RemovingParts(base, p, x, fs);
    LinkCopy.ChildStep(fs, at, done, n);
    ghost var s := r + [n];
    assert x + s == at + [n];
    ChildSpelled(p, r, n);
    StillRemoving(base, p, x, fs, r, done, left);
    FoundBelow(base, p, x, left, s);
    var child := text + "/" + n;
    if |child| >= MAX_CHILD_TEXT {
      assert false;
    }
    ok, left' := RemoveTree(left, child, base, p, x, s);
  }

  lemma ChildSpelled(p: Path, r: Path, n: Name)
    ensures Spelled(p + (r + [n])) == Spelled(p + r) + "/" + n
  {
    assert Parent(p + (r + [n])) == p + r;
  }

  lemma StillRemoving(base: Fs, p: Path, x: Path, fs: Fs, r: Path, done: set<Name>, left: Fs)
    requires Removing(base, p, x, fs) && left == LinkCopy.WithoutChildren(fs, x + r, done) && WellFormed(left)
    ensures Removing(base, p, x, left)
  {
    hide Removing, WellFormed;
    forall q | q in fs && !(x <= q) ensures q in left {
      assert x <= x + r;
    }
    RemovingLess(base, p, x, fs, left);
  }

  // ---- The temporary directory ----

  const ARCHIVE: Path := ["archive"]
  const PAYLOAD: Path := ["payload"]

  /** A copy in preparation: the tree as it was, and something in the temporary directory at `x`. */
  ghost predicate Staged(base: Fs, p: Path, x: Path, fs: Fs) {
    Removing(base, p, x, fs) && forall q :: q in fs && q !in base ==> x <= q
  }

  /** Taking the temporary directory away leaves the tree as it was. */
  lemma Unstaged(base: Fs, p: Path, x: Path, fs: Fs)
    requires Staged(base, p, x, fs)
    ensures LinkCopy.Without(fs, x) == base
  {
    hide WellFormed, Where, Removable, Unlinked;
    assert LinkCopy.Without(fs, x).Keys == base.Keys;
  }

  /** The place for the temporary directory, found and free. */
  ghost predicate Place(base: Fs, p: Path, x: Path) {
    && WellFormed(base) && AllComponents(p) && PlainPath(p) && p != [] && x != [] && Where(base, p) == At(x) && x !in base
    && |Spelled(p)| <= MAX_COPY_FULL_PATH_LEN - 100
  }

  lemma PlaceIsFree(base: Fs, p: Path, x: Path)
    requires Place(base, p, x)
    ensures Vacated(base, x) && IsDir(base, Parent(x))
  {
    hide KernelResolve, AllComponents, PlainPath, Spelled;
    forall q | q in base ensures !(x <= q) {
      if x <= q {
        PrefixCases(x, q);
        NothingBelow(base, x, q);
      }
    }
    assert Parent(x) == x[..|x| - 1];
  }

  lemma StagedDirectory(base: Fs, p: Path, x: Path, node: Node)
    requires Place(base, p, x) && node.view.Dir?
    ensures Staged(base, p, x, base[x := node]) && NewFrom(base, base[x := node], node.id)
  {
    hide Where, AllComponents, PlainPath, Spelled;
    PlaceIsFree(base, p, x);
    var fs := base[x := node];
    forall q | q in fs && q != [] ensures IsDir(fs, Parent(q)) {
      assert q != x ==> IsDir(base, Parent(q));
    }
    NothingThere(p);
    forall q | q in fs && x <= q ensures q == x && q[|x|..] == [] {
      assert q !in base;
    }
  }

  lemma NothingThere(p: Path)
    requires AllComponents(p) && PlainPath(p)
    ensures AllComponents([]) && PlainPath([]) && NameFits([]) && p + [] == p
  {
  }

  /** A plain name in the temporary directory, and where it is. */
  lemma InTheDirectory(base: Fs, p: Path, x: Path, fs: Fs, n: Name)
    requires Staged(base, p, x, fs) && IsDir(fs, x) && |n| <= NAME_MAX && IsComponent(n) && n != "." && n != ".."
    ensures var q := p + [n];
            && AllComponents(q) && PlainPath(q) && Spelled(q) == Spelled(p) + "/" + n
            && Where(fs, q) == At(x + [n]) && Locate(fs, Spelled(q)) == At(x + [n])
  {
    hide Where, Locate, WellFormed, Removable, Unlinked, KernelResolve;
    var q := p + [n];
    assert Parent(q) == p;
    assert x + Parent([n]) == x;
    WhereInside(base, fs, p, x, [n]);
    LocateSpelled(fs, q);
  }

  lemma StagedFile(base: Fs, p: Path, x: Path, fs: Fs, n: Name, node: Node)
    requires Place(base, p, x) && Staged(base, p, x, fs) && IsDir(fs, x) && x + [n] !in fs && node.view.File?
    requires IsComponent(n) && n != "." && n != ".." && |n| < 20
    ensures Staged(base, p, x, fs[x + [n] := node])
  {
    hide Where, KernelResolve, FitsBelow, AllComponents, PlainPath, Spelled, WellFormed;
    var at := x + [n];
    var fs' := fs[at := node];
    NameFitsBelow(p, n);
    assert at[|x|..] == [n] && x <= at;
    LeafStaysWellFormed(fs, at, node);
  }

  lemma LeafStaysWellFormed(fs: Fs, at: Path, node: Node)
    requires WellFormed(fs) && at != [] && IsDir(fs, Parent(at)) && at !in fs
    ensures WellFormed(fs[at := node])
  {
    var fs' := fs[at := node];
    forall q | q in fs' && q != [] ensures IsDir(fs', Parent(q)) {
      assert q != at ==> IsDir(fs, Parent(q));
    }
  }

  lemma NameFitsBelow(p: Path, n: Name)
    requires AllComponents(p) && |Spelled(p)| <= MAX_COPY_FULL_PATH_LEN - 100 && IsComponent(n) && n != "." && n != ".." && |n| < 20
    ensures FitsBelow(p, [n])
  {
    assert Parent(p + [n]) == p;
  }

  lemma StagedPayload(base: Fs, p: Path, x: Path, fs: Fs, first: nat, made: Layer, fs': Fs)
    requires Place(base, p, x) && Staged(base, p, x, fs) && Extracting(fs, first, x + PAYLOAD, made, fs')
    ensures Staged(base, p, x, fs')
  {
    hide Where, KernelResolve, WellFormed, AllComponents, PlainPath, FitsBelow, Spelled, Join, NameFits;
    ExtractedUnlinked(fs, first, x + PAYLOAD, made, fs');
    forall q | q in fs' && x <= q ensures !fs'[q].view.Link? && FitsBelow(p, q[|x|..]) {
      if q !in fs {
        PayloadText(p, q[|x + PAYLOAD|..]);
        assert q[|x|..] == PAYLOAD + q[|x + PAYLOAD|..];
      }
    }
  }

  lemma PayloadText(p: Path, r: Path)
    requires AllComponents(p) && PlainPath(p) && AllComponents(r) && PlainPath(r) && NameFits(r)
    requires |Join(r)| <= MAX_COPY_PATH_LEN && |Spelled(p)| <= MAX_COPY_FULL_PATH_LEN - 100
    ensures FitsBelow(p, PAYLOAD + r)
  {
    hide Spelled, Join;
    var s := PAYLOAD + r;
    assert IsComponent("payload");
    assert PAYLOAD == ["payload"] && Parent(PAYLOAD) == [];
    SpelledAppend(p, s);
    SpelledAppend(PAYLOAD, r);
    PayloadSpelled();
    if r != [] {
      SpelledIsJoin(r);
      assert s[|s| - 1] == r[|r| - 1];
    } else {
      assert s == PAYLOAD;
    }
  }

  lemma PayloadSpelled()
    ensures Spelled(PAYLOAD) == "/payload" && Spelled([]) == ""
  {
    assert Parent(PAYLOAD) == [];
  }

  lemma StagedLess(base: Fs, p: Path, x: Path, fs: Fs, n: Name)
    requires Staged(base, p, x, fs) && x + [n] in fs && !IsDir(fs, x + [n])
    ensures Staged(base, p, x, fs - {x + [n]})
  {
    hide Where, KernelResolve, Removing;
    var at := x + [n];
    var fs' := fs - {at};
    RemovingParts(base, p, x, fs);
    forall q | q in fs' && q != [] ensures IsDir(fs', Parent(q)) {
      assert IsDir(fs, Parent(q));
    }
    assert IsDir(fs', []);
    assert x <= at;
    RemovingLess(base, p, x, fs, fs');
  }

  // ---- Publishing ----

  /** `rename`: what is at `a` is at `b` instead. */
  function Moved(fs: Fs, a: Path, b: Path): (m: Fs)
    ensures forall k :: k in m <==> (k in fs && !(a <= k)) || (b <= k && a + k[|b|..] in fs)
    ensures forall k :: k in m ==> m[k] == if b <= k && a + k[|b|..] in fs then fs[a + k[|b|..]] else fs[k]
  {
    var keys := set q | q in fs && a <= q :: b + q[|a|..];
    assert forall k :: k in keys <==> b <= k && a + k[|b|..] in fs by {
      forall k | k in keys ensures b <= k && a + k[|b|..] in fs {
        var q :| q in fs && a <= q && k == b + q[|a|..];
        assert k[|b|..] == q[|a|..] && a + k[|b|..] == q;
      }
      forall k | b <= k && a + k[|b|..] in fs ensures k in keys {
        var q := a + k[|b|..];
        assert a <= q && q[|a|..] == k[|b|..] && b + q[|a|..] == k;
      }
    }
    LinkCopy.Without(fs, a) + map k | k in keys :: fs[a + k[|b|..]]
  }

  /** The last step of `copy_in_file`: a file is linked and a directory renamed,
      and neither replaces anything. */
  method Publish(fs: Fs, tmp: string, path: string, isFile: bool, ghost from: Path, ghost to: Path) returns (ok: bool, fs': Fs)
    requires Locate(fs, tmp) == At(from) && from in fs && Locate(fs, path) == At(to)
    ensures ok <==> to !in fs
    ensures fs' == if !ok then fs else if isFile then fs[to := fs[from]] else Moved(fs, from, to)
  {
    hide Locate, Moved;
    var source, target := Locate(fs, tmp).path, Locate(fs, path).path;
    if target in fs {
      return false, fs;
    }
    return true, if isFile then fs[target := fs[source]] else Moved(fs, source, target);
  }

  /** Just `made` is at `x`. */
  ghost predicate Holding(fs: Fs, x: Path, made: Layer) {
    forall r :: (x + r in fs <==> r in made) && (r in made ==> fs[x + r].view == made[r])
  }

  lemma ExtractedIsHeld(fs: Fs, first: nat, x: Path, made: Layer, fs': Fs)
    requires Extracting(fs, first, x, made, fs')
    ensures Holding(fs', x, made)
  {
    hide WellFormed;
    forall r ensures (x + r in fs' <==> r in made) && (r in made ==> fs'[x + r].view == made[r]) {
      LaidHas(fs, x, made, fs', r);
    }
  }

  /** Where the copy goes: beside the temporary directory, and nothing is there. */
  ghost predicate Goal(base: Fs, x: Path, to: Path) {
    WellFormed(base) && to != [] && to !in base && IsDir(base, Parent(to)) && !(x <= to) && !(to <= x)
  }

  lemma GoalIsFree(base: Fs, x: Path, to: Path)
    requires Goal(base, x, to)
    ensures Vacated(base, to)
  {
    forall q | q in base ensures !(to <= q) {
      if to <= q {
        PrefixCases(to, q);
        NothingBelow(base, to, q);
      }
    }
  }

  lemma StillRemovable(base: Fs, p: Path, x: Path, fs: Fs, fs': Fs)
    requires Removing(base, p, x, fs) && WellFormed(fs') && Over(base, fs') && forall q :: q in fs' && x <= q ==> q in fs && fs'[q] == fs[q]
    ensures Removing(base, p, x, fs')
  {
    hide WellFormed, Where, AllComponents, PlainPath, FitsBelow;
  }

  lemma Forked(a: Path, b: Path, q: Path)
    requires !(a <= b) && !(b <= a)
    ensures !(a <= q && b <= q)
  {
  }

  /** A file that is linked beside the temporary directory is there when that is gone. */
  lemma LinkedIsLaid(base: Fs, p: Path, x: Path, fs: Fs, first: nat, made: Layer, to: Path)
    requires Staged(base, p, x, fs) && Goal(base, x, to) && NewFrom(base, fs, first)
    requires Holding(fs, x + PAYLOAD, made) && x + PAYLOAD in fs && [] in made && made[[]].File?
    ensures var fs' := fs[to := fs[x + PAYLOAD]];
            Removing(base, p, x, fs') && Laid(base, to, made, LinkCopy.Without(fs', x)) && NewFrom(base, LinkCopy.Without(fs', x), first)
  {
    hide Removing, Where;
    var from := x + PAYLOAD;
    assert from + [] == from;
    GoalIsFree(base, x, to);
    RemovingParts(base, p, x, fs);
    StagedOver(base, p, x, fs);
    var fs' := fs[to := fs[from]];
    LeafStaysWellFormed(fs, to, fs[from]);
    StillRemovable(base, p, x, fs, fs');
    forall r | r in made ensures r == [] {
      assert from + r in fs;
      if r != [] {
        assert from < from + r;
        NothingBelow(fs, from, from + r);
      }
    }
    assert to + [] == to && to[|to|..] == [];
  }

  lemma StagedOver(base: Fs, p: Path, x: Path, fs: Fs)
    requires Staged(base, p, x, fs)
    ensures Over(base, fs) && Vacated(base, x) && forall q :: q in fs && q !in base ==> x <= q
  {
  }

  lemma MovedStaysWellFormed(fs: Fs, a: Path, b: Path)
    requires WellFormed(fs) && a != [] && a in fs && b != [] && Vacated(fs, b) && IsDir(fs, Parent(b)) && !(a <= b)
    ensures WellFormed(Moved(fs, a, b))
  {
    hide Moved;
    var m := Moved(fs, a, b);
    assert !(a <= []) && !(b <= []);
    forall k | k in m && k != [] ensures IsDir(m, Parent(k)) {
      if b <= k && a + k[|b|..] in fs {
        assert k == b + k[|b|..];
        MovedParent(fs, a, b, k[|b|..]);
      } else {
        UnmovedParent(fs, a, b, k);
      }
    }
  }

  lemma MovedParent(fs: Fs, a: Path, b: Path, r: Path)
    requires WellFormed(fs) && a != [] && b != [] && a + r in fs && Vacated(fs, b) && IsDir(fs, Parent(b)) && !(a <= b)
    ensures b + r != [] && IsDir(Moved(fs, a, b), Parent(b + r))
  {
    hide Moved;
    if r == [] {
      assert b + r == b && !(a <= Parent(b)) && !(b <= Parent(b));
    } else {
      assert Parent(b + r) == b + Parent(r) && Parent(a + r) == a + Parent(r) && (b + Parent(r))[|b|..] == Parent(r);
      assert IsDir(fs, Parent(a + r));
    }
  }

  lemma UnmovedParent(fs: Fs, a: Path, b: Path, k: Path)
    requires WellFormed(fs) && Vacated(fs, b) && k in fs && k != [] && !(a <= k)
    ensures IsDir(Moved(fs, a, b), Parent(k))
  {
    hide Moved;
    assert IsDir(fs, Parent(k)) && (a <= Parent(k) ==> a <= k);
  }

  /** And so is a directory that is renamed. */
  lemma RenamedIsLaid(base: Fs, p: Path, x: Path, fs: Fs, first: nat, made: Layer, to: Path)
    requires Staged(base, p, x, fs) && Goal(base, x, to) && NewFrom(base, fs, first)
    requires Holding(fs, x + PAYLOAD, made) && [] in made
    ensures var fs' := Moved(fs, x + PAYLOAD, to);
            Removing(base, p, x, fs') && Laid(base, to, made, LinkCopy.Without(fs', x)) && NewFrom(base, LinkCopy.Without(fs', x), first)
  {
    hide Removing, Where, Moved, WellFormed;
    var from := x + PAYLOAD;
    assert from + [] == from && x <= from;
    GoalIsFree(base, x, to);
    RemovingParts(base, p, x, fs);
    StagedOver(base, p, x, fs);
    forall q | q in fs ensures !(to <= q) {
      Forked(x, to, q);
    }
    MovedStaysWellFormed(fs, from, to);
    var fs' := Moved(fs, from, to);
    forall q | q in base ensures q in fs' && fs'[q] == base[q] {
      assert !(x <= q) && !(to <= q);
    }
    forall q | q in fs' && x <= q ensures q in fs && fs'[q] == fs[q] {
      Forked(x, to, q);
    }
    StillRemovable(base, p, x, fs, fs');
    MovedIsThere(base, x, fs, first, made, to, fs');
  }

  lemma MovedIsThere(base: Fs, x: Path, fs: Fs, first: nat, made: Layer, to: Path, fs': Fs)
    requires Vacated(base, to) && Vacated(base, x) && Over(base, fs) && Over(base, fs') && NewFrom(base, fs, first) && !(x <= to) && !(to <= x)
    requires (forall q :: q in fs && q !in base ==> x <= q) && Holding(fs, x + PAYLOAD, made) && fs' == Moved(fs, x + PAYLOAD, to)
    ensures Laid(base, to, made, LinkCopy.Without(fs', x)) && NewFrom(base, LinkCopy.Without(fs', x), first)
  {
    hide Moved;
    var from, left := x + PAYLOAD, LinkCopy.Without(fs', x);
    forall q | q in left && q !in base ensures to <= q && q[|to|..] in made && left[q].id >= first {
      var r := q[|to|..];
      assert from + r in fs && x <= from + r;
    }
    forall r | r in made ensures to + r in left && left[to + r].view == made[r] {
      assert (to + r)[|to|..] == r && to <= to + r;
      Forked(x, to, to + r);
    }
  }
}
