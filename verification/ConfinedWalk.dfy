/** Resolving a path inside a root without leaving it
    (guest/minimal-initrd/build_copy.c, the fallback of `confined_open_path` and
    `resolve_confined_source_path`). */
module ConfinedWalk {
  import opened Tree
  import opened PathText

  const PENDING_CAP := MAX_COPY_FULL_PATH_LEN + MAX_COPY_PATH_LEN + 2
  const MAX_SYMLINK_DEPTH := 40

  datatype Error = NoEntry | NotDirectory | TooManyLinks | NameTooLong | Invalid
  datatype Found = At(path: Path) | Fails(error: Error)
  datatype Text = Text(text: string) | Refused(error: Error)

  function Pop(p: Path): Path {
    if p == [] then [] else Parent(p)
  }

  /** What the agent sees of a link target: at most 512 characters of it. */
  function Seen(target: string): string {
    if |target| <= MAX_COPY_PATH_LEN then target else target[..MAX_COPY_PATH_LEN]
  }

  function Absolute(target: string): bool {
    target != "" && target[0] == '/'
  }

  /** In-root resolution of the components `todo` from the place `cur`, following
      at most `links` links. An absolute target starts again at the root, and
      `..` at the root stays there. */
  function Resolve(fs: Fs, cur: Path, todo: Path, links: nat): (r: Found)
    decreases links, |todo|
  {
    if todo == [] then At(cur)
    else
      var name, rest := todo[0], todo[1..];
      if name == "." then Resolve(fs, cur, rest, links)
      else if name == ".." then Resolve(fs, Pop(cur), rest, links)
      else if cur + [name] !in fs then Fails(if IsDir(fs, cur) then NoEntry else NotDirectory)
      else
        var view := fs[cur + [name]].view;
        if !view.Link? then Resolve(fs, cur + [name], rest, links)
        else if links == 0 then Fails(TooManyLinks)
        else if view.target == "" then Fails(Invalid)
        else
          var start := if Absolute(view.target) then [] else cur;
          Resolve(fs, start, Split(Seen(view.target)) + rest, links - 1)
  }

  /** What `openat2` with RESOLVE_IN_ROOT does: whole targets, and every step,
      a `.` or `..` included, is taken from a directory. */
  function KernelResolve(fs: Fs, cur: Path, todo: Path, links: nat): (r: Found)
    decreases links, |todo|
  {
    if todo == [] then At(cur)
    else if !IsDir(fs, cur) then Fails(NotDirectory)
    else
      var name, rest := todo[0], todo[1..];
      if name == "." then KernelResolve(fs, cur, rest, links)
      else if name == ".." then KernelResolve(fs, Pop(cur), rest, links)
      else if cur + [name] !in fs then Fails(NoEntry)
      else
        var view := fs[cur + [name]].view;
        if !view.Link? then KernelResolve(fs, cur + [name], rest, links)
        else if links == 0 then Fails(TooManyLinks)
        else if view.target == "" then Fails(Invalid)
        else
          var start := if Absolute(view.target) then [] else cur;
          KernelResolve(fs, start, Split(view.target) + rest, links - 1)
  }

  /** How much text the links followed by `Resolve` add to the pending path. */
  ghost function Growth(fs: Fs, cur: Path, todo: Path, links: nat): nat
    decreases links, |todo|
  {
    if todo == [] then 0
    else
      var name, rest := todo[0], todo[1..];
      if name == "." then Growth(fs, cur, rest, links)
      else if name == ".." then Growth(fs, Pop(cur), rest, links)
      else if cur + [name] !in fs then 0
      else
        var view := fs[cur + [name]].view;
        if !view.Link? then Growth(fs, cur + [name], rest, links)
        else if links == 0 || view.target == "" then 0
        else
          var start := if Absolute(view.target) then [] else cur;
          |Seen(view.target)| + 1 + Growth(fs, start, Split(Seen(view.target)) + rest, links - 1)
  }

  /** A resolved path is a node of the tree, below real directories only, and no link. */
  lemma {:induction false} ResolvedIsReal(fs: Fs, cur: Path, todo: Path, links: nat)
    requires WellFormed(fs) && cur in fs && !fs[cur].view.Link?
    requires Resolve(fs, cur, todo, links).At?
    ensures var p := Resolve(fs, cur, todo, links).path;
            p in fs && !fs[p].view.Link? && DirsAbove(fs, p)
    decreases links, |todo|
  {
    if todo == [] {
      PrefixesAreDirs(fs, cur);
    } else {
      var name, rest := todo[0], todo[1..];
      if name == "." {
        ResolvedIsReal(fs, cur, rest, links);
      } else if name == ".." {
        ResolvedIsReal(fs, Pop(cur), rest, links);
      } else {
        var view := fs[cur + [name]].view;
        if !view.Link? {
          ResolvedIsReal(fs, cur + [name], rest, links);
        } else {
          var start := if Absolute(view.target) then [] else cur;
          ResolvedIsReal(fs, start, Split(Seen(view.target)) + rest, links - 1);
        }
      }
    }
  }

  /** The links met before a step is taken from anything but a directory have targets the agent reads whole. */
  ghost predicate ReadsWhole(fs: Fs, cur: Path, todo: Path, links: nat)
    decreases links, |todo|
  {
    todo == [] || !IsDir(fs, cur) ||
    var name, rest := todo[0], todo[1..];
    if name == "." then ReadsWhole(fs, cur, rest, links)
    else if name == ".." then ReadsWhole(fs, Pop(cur), rest, links)
    else if cur + [name] !in fs then true
    else
      var view := fs[cur + [name]].view;
      if !view.Link? then ReadsWhole(fs, cur + [name], rest, links)
      else if links == 0 || view.target == "" then true
      else
        var start := if Absolute(view.target) then [] else cur;
        |view.target| <= MAX_COPY_PATH_LEN && ReadsWhole(fs, start, Split(view.target) + rest, links - 1)
  }

  /** Every component, `.` and `..` included, is taken while standing in a directory. */
  ghost predicate StepsFromDirs(fs: Fs, cur: Path, todo: Path, links: nat)
    decreases links, |todo|
  {
    todo == [] ||
    (IsDir(fs, cur) &&
     var name, rest := todo[0], todo[1..];
     if name == "." then StepsFromDirs(fs, cur, rest, links)
     else if name == ".." then StepsFromDirs(fs, Pop(cur), rest, links)
     else if cur + [name] !in fs then true
     else
       var view := fs[cur + [name]].view;
       if !view.Link? then StepsFromDirs(fs, cur + [name], rest, links)
       else if links == 0 || view.target == "" then true
       else
         var start := if Absolute(view.target) then [] else cur;
         StepsFromDirs(fs, start, Split(Seen(view.target)) + rest, links - 1))
  }

  /** When the targets it meets are read whole, the walk gives the kernel's
      answer exactly when each step is taken from a directory, or it fails for
      want of one itself. */
  lemma WalkIsKernelResolution(fs: Fs, cur: Path, todo: Path, links: nat)
    requires WellFormed(fs) && ReadsWhole(fs, cur, todo, links)
    ensures KernelResolve(fs, cur, todo, links) == Resolve(fs, cur, todo, links) <==>
            StepsFromDirs(fs, cur, todo, links) || Resolve(fs, cur, todo, links) == Fails(NotDirectory)
  {
    KernelNeedsDirectories(fs, cur, todo, links);
  }

  /** The kernel says not a directory where a step is not taken from one, and otherwise what the walk says. */
  lemma {:induction false} KernelNeedsDirectories(fs: Fs, cur: Path, todo: Path, links: nat)
    requires WellFormed(fs) && ReadsWhole(fs, cur, todo, links)
    ensures KernelResolve(fs, cur, todo, links) ==
            if StepsFromDirs(fs, cur, todo, links) then Resolve(fs, cur, todo, links) else Fails(NotDirectory)
    decreases links, |todo|
  {
    if todo != [] && IsDir(fs, cur) {
      var name, rest := todo[0], todo[1..];
      if name == "." {
        KernelNeedsDirectories(fs, cur, rest, links);
      } else if name == ".." {
        KernelNeedsDirectories(fs, Pop(cur), rest, links);
      } else if cur + [name] in fs {
        var view := fs[cur + [name]].view;
        if !view.Link? {
          KernelNeedsDirectories(fs, cur + [name], rest, links);
        } else if links > 0 && view.target != "" {
          var start := if Absolute(view.target) then [] else cur;
          KernelNeedsDirectories(fs, start, Split(view.target) + rest, links - 1);
        }
      }
    }
  }

  /** Stepping back out of anything but a directory: the walk allows it, the kernel refuses. */
  lemma DotDotLeavesFile(fs: Fs, name: Name)
    requires WellFormed(fs) && [name] in fs && fs[[name]].view.File? && name !in {".", ".."}
    ensures Resolve(fs, [], [name, ".."], MAX_SYMLINK_DEPTH) == At([])
    ensures KernelResolve(fs, [], [name, ".."], MAX_SYMLINK_DEPTH) == Fails(NotDirectory)
  {
    var todo := [name, ".."];
    assert [] + [name] == [name] && todo[1..] == [".."] && [".."][1..] == [];
    assert Resolve(fs, [name], [".."], MAX_SYMLINK_DEPTH) == Resolve(fs, [], [], MAX_SYMLINK_DEPTH);
  }

  /** A longer target is cut short, so the walk can answer with another node. */
  lemma LongTargetIsCut(fs: Fs, target: string)
    requires |target| == MAX_COPY_PATH_LEN + 1
    requires forall i :: 0 <= i < MAX_COPY_PATH_LEN - 1 ==> target[i] == '/'
    requires target[MAX_COPY_PATH_LEN - 1..] == "ab"
    requires WellFormed(fs) && ["l"] in fs && fs[["l"]].view.Link? && fs[["l"]].view.target == target
    requires IsDir(fs, ["a"]) && IsDir(fs, ["ab"])
    ensures Resolve(fs, [], ["l"], MAX_SYMLINK_DEPTH) == At(["a"])
    ensures KernelResolve(fs, [], ["l"], MAX_SYMLINK_DEPTH) == At(["ab"])
  {
    SplitTrimmed(target, MAX_COPY_PATH_LEN - 1);
    SplitComponent("ab");
    SplitTrimmed(Seen(target), MAX_COPY_PATH_LEN - 1);
    assert Seen(target)[MAX_COPY_PATH_LEN - 1..] == [target[MAX_COPY_PATH_LEN - 1..][0]];
    SplitComponent("a");
    assert [] + ["l"] == ["l"] && ["l"][1..] == [] && target[0] == '/';
    assert ["a"] + [] == ["a"] == [] + ["a"] && ["ab"] + [] == ["ab"] == [] + ["ab"];
    assert Resolve(fs, [], ["a"], MAX_SYMLINK_DEPTH - 1) == Resolve(fs, ["a"], [], MAX_SYMLINK_DEPTH - 1);
    assert KernelResolve(fs, [], ["ab"], MAX_SYMLINK_DEPTH - 1) == KernelResolve(fs, ["ab"], [], MAX_SYMLINK_DEPTH - 1);
  }

  // ---- The walkers, on text buffers ----

  datatype Popped = End | Component(name: Name, rest: string) | TooLong

  /** `pop_pending_component`. */
  method PopPending(pending: string) returns (r: Popped)
    ensures r.End? ==> Split(pending) == []
    ensures r.Component? ==>
              && Split(pending) == [r.name] + Split(r.rest)
              && |r.name| <= MAX_COPY_PATH_LEN
              && |r.name| + |r.rest| + (if r.rest == "" then 0 else 1) <= |pending|
    ensures r.TooLong? ==> Split(pending) != [] && |pending| > MAX_COPY_PATH_LEN
  {
    var start := 0;
    while start < |pending| && pending[start] == '/'
      invariant start <= |pending|
      invariant forall i :: 0 <= i < start ==> pending[i] == '/'
    {
      start := start + 1;
    }
    SplitTrimmed(pending, start);
    var trimmed := pending[start..];
    if trimmed == "" {
      return End;
    }
    var len := SlashAt(trimmed);
    if len > MAX_COPY_PATH_LEN {
      return TooLong;
    }
    if len == |trimmed| {
      assert trimmed[..len] == trimmed && trimmed[len..] == "";
      return Component(trimmed, "");
    }
    assert trimmed[len..][1..] == trimmed[len + 1..];
    return Component(trimmed[..len], trimmed[len + 1..]);
  }

  /** `append_path_component`: the text of the path with one more component,
      refused exactly when that does not fit a buffer of `cap` characters. */
  method AppendComponent(path: string, name: Name, cap: nat, ghost p: Path) returns (r: Text)
    requires AllComponents(p) && path == Join(p) && IsComponent(name)
    ensures r.Text? ==> r.text == Join(p + [name]) && Split(r.text) == p + [name]
    ensures r.Refused? <==> |Join(p + [name])| >= cap
    ensures r.Refused? ==> r.error == NameTooLong
  {
    JoinOnto(p, name);
    var need := |path| + (if path == "" then 0 else 1) + |name|;
    if need >= cap {
      return Refused(NameTooLong);
    }
    return Text(if path == "" then name else path + "/" + name);
  }

  /** `pop_path_component`: cut at the last slash. */
  method PopComponent(path: string, ghost p: Path) returns (r: string)
    requires AllComponents(p) && path == Join(p)
    ensures r == Join(Pop(p)) && |r| <= |path|
  {
    if p != [] {
      LastSlashOfJoin(p);
    }
    var slash := LastSlash(path);
    if slash < 0 {
      r := "";
    } else {
      r := path[..slash];
    }
  }

  /** Where a walk stands: what is resolved, what is left, and the links followed. */
  datatype Cursor = Cursor(logical: string, pending: string, depth: nat)
  datatype Step = Next(cursor: Cursor) | Done(result: Text)

  /** The text a walk from `c`, standing at `cur`, can still come to hold. */
  ghost function Weight(fs: Fs, c: Cursor, cur: Path): int
    requires c.depth <= MAX_SYMLINK_DEPTH
  {
    |c.logical| + |c.pending| + (if c.pending == "" then 0 else 1)
    + Growth(fs, cur, Split(c.pending), MAX_SYMLINK_DEPTH - c.depth)
  }

  ghost function Rest(fs: Fs, c: Cursor, cur: Path): Found
    requires c.depth <= MAX_SYMLINK_DEPTH
  {
    Resolve(fs, cur, Split(c.pending), MAX_SYMLINK_DEPTH - c.depth)
  }

  /** One turn of the walkers' loop. */
  method WalkStep(fs: Fs, c: Cursor, ghost cur: Path) returns (s: Step, ghost there: Path)
    requires WellFormed(fs) && AllComponents(cur) && c.logical == Join(cur) && c.depth <= MAX_SYMLINK_DEPTH
    ensures s.Next? ==>
              && s.cursor.depth <= MAX_SYMLINK_DEPTH
              && (s.cursor.depth > c.depth || (s.cursor.depth == c.depth && |s.cursor.pending| < |c.pending|))
              && AllComponents(there) && s.cursor.logical == Join(there)
              && Rest(fs, s.cursor, there) == Rest(fs, c, cur)
              && Weight(fs, s.cursor, there) <= Weight(fs, c, cur)
    ensures s.Done? && s.result.Text? ==> s.result.text == c.logical && Rest(fs, c, cur) == At(cur)
    ensures s.Done? && s.result.Refused? && s.result.error != NameTooLong ==> Rest(fs, c, cur) == Fails(s.result.error)
    ensures s == Done(Refused(NameTooLong)) ==> Weight(fs, c, cur) > MAX_COPY_PATH_LEN
  {
    there := cur;
    var popped := PopPending(c.pending);
    if popped.TooLong? {
      return Done(Refused(NameTooLong)), cur;
    }
    if popped.End? {
      return Done(Text(c.logical)), cur;
    }
    var name, pending := popped.name, popped.rest;
    ghost var todo := Split(c.pending);
    assert todo == [name] + Split(pending);
    assert todo[0] == name && todo[1..] == Split(pending);
    if name == "." {
      return Next(c.(pending := pending)), cur;
    }
    if name == ".." {
      var up := PopComponent(c.logical, cur);
      return Next(c.(logical := up, pending := pending)), Pop(cur);
    }
    s, there := EnterComponent(fs, c, cur, name, pending);
  }

  /** The part of a turn that looks a component up. */
  method EnterComponent(fs: Fs, c: Cursor, ghost cur: Path, name: Name, pending: string) returns (s: Step, ghost there: Path)
    requires AllComponents(cur) && c.logical == Join(cur) && c.depth <= MAX_SYMLINK_DEPTH
    requires IsComponent(name) && name !in {".", ".."} && Split(c.pending) == [name] + Split(pending)
    requires |name| + |pending| + (if pending == "" then 0 else 1) <= |c.pending|
    ensures s.Next? ==>
              && s.cursor.depth <= MAX_SYMLINK_DEPTH
              && (s.cursor.depth > c.depth || (s.cursor.depth == c.depth && |s.cursor.pending| < |c.pending|))
              && AllComponents(there) && s.cursor.logical == Join(there)
              && Rest(fs, s.cursor, there) == Rest(fs, c, cur)
              && Weight(fs, s.cursor, there) <= Weight(fs, c, cur)
    ensures s.Done? ==> s.result.Refused?
    ensures s.Done? && s.result.error != NameTooLong ==> Rest(fs, c, cur) == Fails(s.result.error)
    ensures s == Done(Refused(NameTooLong)) ==> Weight(fs, c, cur) > MAX_COPY_PATH_LEN
  {
    there := cur;
    ghost var todo, links := Split(c.pending), MAX_SYMLINK_DEPTH - c.depth;
    assert todo[0] == name && todo[1..] == Split(pending);
    var candidate := AppendComponent(c.logical, name, PENDING_CAP, cur);
    if candidate.Refused? {
      return Done(candidate), cur;
    }
    JoinOnto(cur, name);
    SplitJoin(cur);
    var at := Split(candidate.text);
    if at !in fs {
      return Done(Refused(if IsDir(fs, Split(c.logical)) then NoEntry else NotDirectory)), cur;
    }
    if fs[at].view.Link? {
      if c.depth == MAX_SYMLINK_DEPTH {
        return Done(Refused(TooManyLinks)), cur;
      }
      var target := fs[at].view.target;
      if |target| > MAX_COPY_PATH_LEN {
        target := target[..MAX_COPY_PATH_LEN];
      }
      s, there := FollowLink(fs, c, cur, name, pending, target);
      return;
    }
    var grown := AppendComponent(c.logical, name, MAX_COPY_FULL_PATH_LEN, cur);
    if grown.Refused? {
      return Done(grown), cur;
    }
    StepInto(fs, cur, todo, links);
    s, there := Next(Cursor(grown.text, pending, c.depth)), cur + [name];
    assert Rest(fs, s.cursor, there) == Rest(fs, c, cur);
  }

  method FollowLink(fs: Fs, c: Cursor, ghost cur: Path, ghost name: Name, pending: string, target: string)
    returns (s: Step, ghost there: Path)
    requires AllComponents(cur) && c.logical == Join(cur) && c.depth < MAX_SYMLINK_DEPTH
    requires IsComponent(name) && name !in {".", ".."} && Split(c.pending) == [name] + Split(pending)
    requires |name| + |pending| + (if pending == "" then 0 else 1) <= |c.pending|
    requires cur + [name] in fs && fs[cur + [name]].view.Link? && target == Seen(fs[cur + [name]].view.target)
    ensures s.Next? ==>
              && s.cursor.depth <= MAX_SYMLINK_DEPTH
              && (s.cursor.depth > c.depth || (s.cursor.depth == c.depth && |s.cursor.pending| < |c.pending|))
              && AllComponents(there) && s.cursor.logical == Join(there)
              && Rest(fs, s.cursor, there) == Rest(fs, c, cur)
              && Weight(fs, s.cursor, there) <= Weight(fs, c, cur)
    ensures s.Done? ==> s.result.Refused?
    ensures s.Done? && s.result.error != NameTooLong ==> Rest(fs, c, cur) == Fails(s.result.error)
    ensures s == Done(Refused(NameTooLong)) ==> Weight(fs, c, cur) > MAX_COPY_PATH_LEN
  {
    ghost var todo := Split(c.pending);
    assert todo[0] == name && todo[1..] == Split(pending);
    StepThroughLink(fs, cur, todo, MAX_SYMLINK_DEPTH - c.depth);
    var next := Prepend(pending, target);
    if next.Refused? {
      return Done(next), cur;
    }
    if target[0] == '/' {
      return Next(Cursor("", next.text, c.depth + 1)), [];
    }
    return Next(Cursor(c.logical, next.text, c.depth + 1)), cur;
  }

  /** The loop both walkers share. Text that outgrows a buffer is refused; in
      every other case the walk is `Resolve`. */
  method Walk(fs: Fs, rel: string) returns (r: Text)
    requires WellFormed(fs)
    ensures r.Text? ==>
              exists p :: Resolve(fs, [], Split(rel), MAX_SYMLINK_DEPTH) == At(p) && AllComponents(p) && r.text == Join(p)
    ensures r.Refused? && r.error != NameTooLong ==> Resolve(fs, [], Split(rel), MAX_SYMLINK_DEPTH) == Fails(r.error)
    ensures |rel| + 1 + Growth(fs, [], Split(rel), MAX_SYMLINK_DEPTH) <= MAX_COPY_PATH_LEN ==>
              r != Refused(NameTooLong) && (r.Text? ==> |r.text| <= MAX_COPY_PATH_LEN)
  {
    if |rel| >= PENDING_CAP {
      return Refused(NameTooLong);
    }
    var cursor := Cursor("", rel, 0);
    ghost var cur: Path := [];
    ghost var start := cursor;
    while true
      invariant cursor.depth <= MAX_SYMLINK_DEPTH
      invariant AllComponents(cur) && cursor.logical == Join(cur)
      invariant Rest(fs, cursor, cur) == Rest(fs, start, [])
      invariant Weight(fs, cursor, cur) <= Weight(fs, start, [])
      decreases MAX_SYMLINK_DEPTH - cursor.depth, |cursor.pending|
    {
      var step;
      step, cur := WalkStep(fs, cursor, cur);
      if step.Done? {
        return step.result;
      }
      cursor := step.cursor;
    }
  }

  lemma JoinOnto(cur: Path, name: Name)
    requires AllComponents(cur) && IsComponent(name)
    ensures Join(cur + [name]) == if Join(cur) == "" then name else Join(cur) + "/" + name
    ensures Split(Join(cur + [name])) == cur + [name]
  {
    assert Parent(cur + [name]) == cur;
    SplitJoin(cur);
    SplitJoin(cur + [name]);
  }

  lemma StepInto(fs: Fs, cur: Path, todo: Path, links: nat)
    requires todo != [] && todo[0] !in {".", ".."}
    requires cur + [todo[0]] in fs && !fs[cur + [todo[0]]].view.Link?
    ensures Resolve(fs, cur, todo, links) == Resolve(fs, cur + [todo[0]], todo[1..], links)
    ensures Growth(fs, cur, todo, links) == Growth(fs, cur + [todo[0]], todo[1..], links)
  {
  }

  lemma StepThroughLink(fs: Fs, cur: Path, todo: Path, links: nat)
    requires todo != [] && todo[0] !in {".", ".."} && links > 0
    requires cur + [todo[0]] in fs && fs[cur + [todo[0]]].view.Link?
    ensures var target := fs[cur + [todo[0]]].view.target;
            var start := if Absolute(Seen(target)) then [] else cur;
            if target == "" then Resolve(fs, cur, todo, links) == Fails(Invalid)
            else
              && Seen(target) != ""
              && Resolve(fs, cur, todo, links) == Resolve(fs, start, Split(Seen(target)) + todo[1..], links - 1)
              && Growth(fs, cur, todo, links)
                 == |Seen(target)| + 1 + Growth(fs, start, Split(Seen(target)) + todo[1..], links - 1)
  {
  }

  /** `prepend_symlink_target`. */
  method Prepend(pending: string, target: string) returns (r: Text)
    ensures target == "" ==> r == Refused(Invalid)
    ensures r.Text? ==> Split(r.text) == Split(target) + Split(pending)
                        && |r.text| <= |target| + |pending| + (if pending == "" then 0 else 1)
    ensures target != "" && |target| + 1 + |pending| < PENDING_CAP ==> r.Text?
    ensures r.Refused? ==> r.error == if target == "" then Invalid else NameTooLong
  {
    if target == "" {
      return Refused(Invalid);
    }
    var start := 0;
    while start < |target| && target[start] == '/'
      invariant start <= |target|
      invariant forall i :: 0 <= i < start ==> target[i] == '/'
    {
      start := start + 1;
    }
    SplitTrimmed(target, start);
    var next := if pending == "" then target[start..] else target[start..] + "/" + pending;
    SplitJoined(target[start..], pending);
    if |next| >= PENDING_CAP {
      return Refused(NameTooLong);
    }
    return Text(next);
  }

  /** Opening `p` with O_NOFOLLOW at every component. */
  function NoFollow(fs: Fs, cur: Path, todo: Path): (r: Found)
    decreases |todo|
  {
    if todo == [] then At(cur)
    else if !IsDir(fs, cur) then Fails(NotDirectory)
    else if cur + [todo[0]] !in fs then Fails(NoEntry)
    else if fs[cur + [todo[0]]].view.Link? then Fails(TooManyLinks)
    else NoFollow(fs, cur + [todo[0]], todo[1..])
  }

  /** A path below real directories that names no link opens as itself. */
  lemma {:induction false} NoFollowReachesReal(fs: Fs, cur: Path, todo: Path)
    requires cur + todo in fs && !fs[cur + todo].view.Link? && DirsAbove(fs, cur + todo)
    ensures NoFollow(fs, cur, todo) == At(cur + todo)
    decreases |todo|
  {
    if todo == [] {
      assert cur + todo == cur;
    } else {
      assert (cur + todo)[..|cur|] == cur;
      assert cur + [todo[0]] + todo[1..] == cur + todo;
      if |todo| > 1 {
        assert (cur + todo)[..|cur| + 1] == cur + [todo[0]];
      } else {
        assert cur + todo == cur + [todo[0]];
      }
      NoFollowReachesReal(fs, cur + [todo[0]], todo[1..]);
    }
  }

  /** `open_resolved_path_nofollow`. */
  method OpenNoFollow(fs: Fs, logical: string) returns (r: Found)
    ensures r == Fails(NameTooLong) ==> |logical| > MAX_COPY_PATH_LEN
    ensures r != Fails(NameTooLong) ==> r == NoFollow(fs, [], Split(logical))
  {
    if |logical| >= MAX_COPY_FULL_PATH_LEN {
      return Fails(NameTooLong);
    }
    var pending := logical;
    var at: Path := [];
    while true
      invariant |pending| <= |logical|
      invariant NoFollow(fs, at, Split(pending)) == NoFollow(fs, [], Split(logical))
      decreases |pending|
    {
      var popped := PopPending(pending);
      if popped.TooLong? {
        return Fails(NameTooLong);
      }
      if popped.End? {
        return At(at);
      }
      assert Split(pending)[0] == popped.name && Split(pending)[1..] == Split(popped.rest);
      if !IsDir(fs, at) {
        return Fails(NotDirectory);
      }
      if at + [popped.name] !in fs {
        return Fails(NoEntry);
      }
      if fs[at + [popped.name]].view.Link? {
        return Fails(TooManyLinks);
      }
      at, pending := at + [popped.name], popped.rest;
    }
  }

  function Relative(raw: string): (rel: string)
    ensures Split(rel) == Split(raw) && |rel| <= |raw|
  {
    if raw != "" && raw[0] == '/' then raw[1..] else raw
  }

  /** The whole in-root resolution of a path's text. */
  function ResolveText(fs: Fs, raw: string): Found {
    Resolve(fs, [], Split(raw), MAX_SYMLINK_DEPTH)
  }

  /** `confined_open_path_fallback` for an existing path: the path walked to and
      the path then opened without following links are one and the same. */
  method ConfinedOpen(fs: Fs, raw: string) returns (r: Found)
    requires WellFormed(fs)
    ensures r.At? ==> r == ResolveText(fs, raw) && r.path in fs && !fs[r.path].view.Link? && DirsAbove(fs, r.path)
    ensures r.Fails? && r.error != NameTooLong ==> r == ResolveText(fs, raw)
    ensures |raw| + 1 + Growth(fs, [], Split(raw), MAX_SYMLINK_DEPTH) <= MAX_COPY_PATH_LEN ==> r == ResolveText(fs, raw)
  {
    var rel := Relative(raw);
    if rel == "" {
      return At([]);
    }
    if |rel| > MAX_COPY_PATH_LEN {
      return Fails(NameTooLong);
    }
    var walked := Walk(fs, rel);
    if walked.Refused? {
      return Fails(walked.error);
    }
    ghost var p := ResolveText(fs, rel).path;
    ResolvedIsReal(fs, [], Split(rel), MAX_SYMLINK_DEPTH);
    SplitJoin(p);
    assert [] + p == p;
    NoFollowReachesReal(fs, [], p);
    r := OpenNoFollow(fs, walked.text);
  }

  /** `resolve_confined_source_path`: the same walk, answered as text. */
  method ResolveSource(fs: Fs, raw: string) returns (r: Text)
    requires WellFormed(fs)
    ensures r.Text? ==>
              exists p :: ResolveText(fs, raw) == At(p) && AllComponents(p) && r.text == (if p == [] then "." else Join(p))
    ensures r.Refused? && r.error != NameTooLong ==> ResolveText(fs, raw) == Fails(r.error)
    ensures |raw| + 2 + Growth(fs, [], Split(raw), MAX_SYMLINK_DEPTH) <= MAX_COPY_PATH_LEN ==> r != Refused(NameTooLong)
  {
    var rel := Relative(raw);
    if rel == "" {
      rel := ".";
      SplitComponent(".");
      assert ["."][1..] == [];
      assert Resolve(fs, [], ["."], MAX_SYMLINK_DEPTH) == Resolve(fs, [], [], MAX_SYMLINK_DEPTH);
      assert Growth(fs, [], ["."], MAX_SYMLINK_DEPTH) == Growth(fs, [], [], MAX_SYMLINK_DEPTH);
    }
    var walked := Walk(fs, rel);
    if walked.Refused? {
      return walked;
    }
    var resolved := if walked.text == "" then "." else walked.text;
    if |resolved| > MAX_COPY_PATH_LEN {
      return Refused(NameTooLong);
    }
    return Text(resolved);
  }
}
