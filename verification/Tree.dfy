/** File trees as the guest agent's build code sees them: a finite map from
    component paths to nodes. No other process changes a tree while the agent
    works on it. */
module Tree {
  import opened Bytes

  type Name = string
  type Path = seq<Name>

  /** Permission bits and ownership. Times and extended attributes are left out. */
  datatype Meta = Meta(mode: nat, uid: nat, gid: nat)

  /** The longest name the kernel takes. */
  const NAME_MAX := 255

  /** What a path holds, without the identity of the inode that holds it. */
  datatype View =
    | Dir(meta: Meta)
    | File(meta: Meta, data: seq<byte>)
    | Link(meta: Meta, target: string)
    /** A device, a FIFO or a socket. */
    | Special(meta: Meta)

  /** `id` stands for the (device, inode) pair: two paths with one id are hard links. */
  datatype Node = Node(id: nat, view: View)

  type Fs = map<Path, Node>

  function Parent(p: Path): Path
    requires p != []
  {
    p[..|p| - 1]
  }

  predicate IsDir(fs: Fs, p: Path) {
    p in fs && fs[p].view.Dir?
  }

  ghost predicate WellFormed(fs: Fs) {
    && IsDir(fs, [])
    && forall p {:trigger Parent(p)} :: p in fs && p != [] ==> IsDir(fs, Parent(p))
  }

  /** Every proper prefix of `p` is a real directory. */
  ghost predicate DirsAbove(fs: Fs, p: Path) {
    forall k :: 0 <= k < |p| ==> IsDir(fs, p[..k])
  }

  /** The first `m` components of `p`, and the root, are directories. */
  ghost predicate DirsTo(fs: Fs, p: Path, m: nat)
    requires m <= |p|
  {
    forall i :: 0 <= i <= m ==> IsDir(fs, p[..i])
  }

  lemma {:induction false} PrefixesAreDirs(fs: Fs, p: Path)
    requires WellFormed(fs) && p in fs
    ensures DirsAbove(fs, p)
    decreases |p|
  {
    if p != [] {
      PrefixesAreDirs(fs, Parent(p));
      forall k | 0 <= k < |p| ensures IsDir(fs, p[..k]) {
        if k < |p| - 1 {
          assert Parent(p)[..k] == p[..k];
        }
      }
    }
  }

  lemma PrefixCases(p: Path, q: Path)
    requires p <= q
    ensures p == q || p < q
  {
    if |p| == |q| {
      assert q == q[..|p|];
    }
  }

  /** Nothing lies below a path that is absent or not a directory. */
  lemma NothingBelow(fs: Fs, p: Path, q: Path)
    requires WellFormed(fs) && !IsDir(fs, p) && p < q
    ensures q !in fs
  {
    assert q[..|p|] == p;
    if q in fs {
      PrefixesAreDirs(fs, q);
    }
  }

  /** Everything at `p` and below it. */
  function AtOrBelow(fs: Fs, p: Path): (s: set<Path>)
    ensures forall q :: q in s <==> q in fs && p <= q
  {
    set q | q in fs && p <= q
  }

  predicate HasChildren(fs: Fs, p: Path) {
    exists q | q in fs :: q != [] && Parent(q) == p
  }

  /** `readdir` without `.` and `..`. */
  method ListDirectory(fs: Fs, p: Path) returns (names: set<Name>)
    ensures forall n {:trigger p + [n]} :: n in names <==> p + [n] in fs
  {
    names := set q | q in fs && |q| == |p| + 1 && p <= q :: q[|p|];
    forall n | p + [n] in fs ensures n in names {
      assert (p + [n])[|p|] == n;
    }
    forall q | q in fs && |q| == |p| + 1 && p <= q ensures p + [q[|p|]] in fs {
      assert q == p + [q[|p|]];
    }
  }

  /** Everything below `p` is at or below one of its children. */
  lemma BelowSomeChild(fs: Fs, p: Path, q: Path)
    requires WellFormed(fs) && q in fs && p < q
    ensures p + [q[|p|]] in fs && p + [q[|p|]] <= q
  {
    PrefixesAreDirs(fs, q);
    assert q[..|p| + 1] == p + [q[|p|]];
    if |q| == |p| + 1 {
      assert q == p + [q[|p|]];
    }
  }

  /** A path as the agent spells it: a slash before each component. */
  function Spelled(p: Path): string {
    if p == [] then "" else Spelled(Parent(p)) + "/" + p[|p| - 1]
  }

  /** A path made of names a directory can list: neither `.` nor `..`. */
  predicate PlainPath(p: Path) {
    forall i :: 0 <= i < |p| ==> p[i] != "." && p[i] != ".."
  }

  // ---- Trees without inode identity, and layers ----

  type Layer = map<Path, View>

  ghost function Erase(fs: Fs): (m: Layer)
    ensures m.Keys == fs.Keys
    ensures forall p :: p in fs ==> m[p] == fs[p].view
  {
    map p | p in fs :: fs[p].view
  }

  /** A path hidden by `layer`: some proper prefix of it is a non-directory there. */
  ghost predicate Shadowed(layer: Layer, p: Path) {
    exists k :: 0 <= k < |p| && p[..k] in layer && !layer[p[..k]].Dir?
  }

  /** Stacking `layer` on `base`, as an image layer is stacked: the layer's
      entries win, its directories merge with the base's, and anything else in
      it hides the base below that path. */
  ghost function Overlay(base: Layer, layer: Layer): (m: Layer)
    ensures forall p :: p in m <==> p in layer || (p in base && !Shadowed(layer, p))
    ensures forall p :: p in m ==> m[p] == if p in layer then layer[p] else base[p]
  {
    map p | p in base.Keys + layer.Keys && (p in layer || !Shadowed(layer, p)) ::
      if p in layer then layer[p] else base[p]
  }

  /** Neither layer hides an entry of the other, and they agree where they meet. */
  ghost predicate Stackable(a: Layer, b: Layer) {
    && (forall p :: p in a && p in b ==> a[p] == b[p])
    && (forall p :: p in a ==> !Shadowed(b, p))
  }

  lemma ShadowedUnion(a: Layer, b: Layer, p: Path)
    requires Stackable(a, b)
    ensures Shadowed(a + b, p) <==> Shadowed(a, p) || Shadowed(b, p)
  {
    if Shadowed(a, p) {
      var k :| 0 <= k < |p| && p[..k] in a && !a[p[..k]].Dir?;
      assert p[..k] in a + b && (a + b)[p[..k]] == a[p[..k]];
    }
    if Shadowed(b, p) {
      var k :| 0 <= k < |p| && p[..k] in b && !b[p[..k]].Dir?;
      assert p[..k] in a + b && (a + b)[p[..k]] == b[p[..k]];
    }
  }

  /** Stacking two such layers in turn is stacking their union. */
  lemma OverlayTwice(base: Layer, a: Layer, b: Layer)
    requires Stackable(a, b)
    ensures Overlay(Overlay(base, a), b) == Overlay(base, a + b)
  {
    var twice, once := Overlay(Overlay(base, a), b), Overlay(base, a + b);
    forall p
      ensures p in twice <==> p in once
      ensures p in twice ==> twice[p] == once[p]
    {
      ShadowedUnion(a, b, p);
    }
    assert twice.Keys == once.Keys;
  }

  /** A layer is fit to stack on itself when nothing in it lies below its own non-directories. */
  lemma OverlayIdempotent(base: Layer, layer: Layer)
    requires forall p :: p in layer ==> !Shadowed(layer, p)
    ensures Overlay(Overlay(base, layer), layer) == Overlay(base, layer)
  {
    OverlayTwice(base, layer, layer);
    assert layer + layer == layer;
  }
}
