/** What `COPY --link` is for: the copied tree as a layer of its own, to be
    stacked on any root (guest/minimal-initrd/build_copy.c). */
module LinkLayer {
  import opened Tree
  import opened Rootfs

  const MODE_BITS := 4096
  const LINK_MODE := 511

  /** A source entry as the copy writes it: permission bits and ownership kept. */
  ghost function Copied(v: View): View {
    match v
    case Dir(m) => Dir(m.(mode := m.mode % MODE_BITS))
    case File(m, data) => File(m.(mode := m.mode % MODE_BITS), data)
    case Link(m, target) => Link(m.(mode := LINK_MODE), target)
    case Special(_) => v
  }

  /** The top of the copied tree: a directory there is made by the builder, not the source. */
  ghost function CopiedTop(v: View): View {
    if v.Dir? then Dir(ROOT_0755) else Copied(v)
  }

  /** The source path that `p` is the image of, when the tree at `s` is copied to `d`. */
  function Back(s: Path, d: Path, p: Path): Path
    requires d <= p
  {
    s + p[|d|..]
  }

  /** The copy of the subtree at `s`, as it lies at `d` with `own` at its top. */
  ghost function Image(src: Fs, s: Path, d: Path, own: View): (m: Layer)
    requires s in src
    ensures forall p :: p in m <==> d <= p && Back(s, d, p) in src
    ensures forall p :: p in m ==> m[p] == if p == d then own else Copied(src[Back(s, d, p)].view)
  {
    var keys := set q | q in src && s <= q :: d + q[|s|..];
    assert forall p :: p in keys <==> d <= p && Back(s, d, p) in src by {
      forall p | p in keys ensures d <= p && Back(s, d, p) in src {
        var q :| q in src && s <= q && p == d + q[|s|..];
        assert p[|d|..] == q[|s|..] && Back(s, d, p) == q;
      }
      forall p | d <= p && Back(s, d, p) in src ensures p in keys {
        var q := Back(s, d, p);
        assert s <= q && q[|s|..] == p[|d|..] && d + q[|s|..] == p;
      }
    }
    map p | p in keys :: if p == d then own else Copied(src[Back(s, d, p)].view)
  }

  /** The part of that copy that holds its top and the children in `names`. */
  ghost function PartImage(src: Fs, s: Path, d: Path, own: View, names: set<Name>): (m: Layer)
    requires s in src
    ensures forall p :: p in m <==> p == d || (d < p && p[|d|] in names && Back(s, d, p) in src)
    ensures forall p :: p in m ==> m[p] == if p == d then own else Copied(src[Back(s, d, p)].view)
  {
    var image := Image(src, s, d, own);
    assert Back(s, d, d) == s;
    map p | p in image && (p == d || p[|d|] in names) :: image[p]
  }

  ghost function Directories(p: Path, k: nat): (m: Layer)
    requires k <= |p|
    ensures forall q :: q in m <==> 0 < |q| <= k && q <= p
    ensures forall q :: q in m ==> m[q] == Dir(ROOT_0755)
  {
    if k == 0 then map[]
    else
      var m := Directories(p, k - 1)[p[..k] := Dir(ROOT_0755)];
      assert forall q :: q in m <==> 0 < |q| <= k && q <= p by {
        forall q | 0 < |q| <= k && q <= p ensures q in m {
          assert q == p[..|q|];
        }
      }
      m
  }

  /** The layer `COPY --link` builds: the directories above the destination, then the copy. */
  ghost function CopyLayer(src: Fs, s: Path, d: Path): Layer
    requires s in src
  {
    Directories(d, if d == [] then 0 else |d| - 1) + Image(src, s, d, CopiedTop(src[s].view))
  }

  lemma ChildImage(src: Fs, s: Path, d: Path, n: Name, p: Path)
    requires s + [n] in src
    ensures var child := Image(src, s + [n], d + [n], Copied(src[s + [n]].view));
            && (p in child <==> d < p && p[|d|] == n && Back(s, d, p) in src)
            && (p in child ==> child[p] == Copied(src[Back(s, d, p)].view))
  {
    if d + [n] <= p {
      assert Back(s + [n], d + [n], p) == Back(s, d, p);
      assert p == d + [n] ==> Back(s, d, p) == s + [n];
    }
    if d < p && p[|d|] == n {
      assert d + [n] <= p;
    }
  }

  /** Copying one more child adds that child's image, and hides nothing copied before. */
  lemma PartImageGrows(src: Fs, s: Path, d: Path, own: View, names: set<Name>, n: Name)
    requires s in src && s + [n] in src && n !in names
    ensures var part, child := PartImage(src, s, d, own, names), Image(src, s + [n], d + [n], Copied(src[s + [n]].view));
            PartImage(src, s, d, own, names + {n}) == part + child && Stackable(part, child)
  {
    var more, part := PartImage(src, s, d, own, names + {n}), PartImage(src, s, d, own, names);
    var child := Image(src, s + [n], d + [n], Copied(src[s + [n]].view));
    forall p
      ensures p in more <==> p in part || p in child
      ensures p in more ==> more[p] == (part + child)[p]
      ensures p !in part || p !in child
    {
      ChildImage(src, s, d, n, p);
    }
    assert more.Keys == (part + child).Keys;
    forall p | p in part ensures !Shadowed(child, p) {
      forall k | 0 <= k < |p| ensures p[..k] !in child {
        ChildImage(src, s, d, n, p[..k]);
        assert d < p[..k] ==> d < p && p[|d|] == p[..k][|d|];
      }
    }
  }

  /** The copy of a tree is the copy of its top and of every child. */
  lemma ImageIsWhole(src: Fs, s: Path, d: Path, own: View, names: set<Name>)
    requires WellFormed(src) && s in src
    requires forall n {:trigger s + [n]} :: s + [n] in src ==> n in names
    ensures PartImage(src, s, d, own, names) == Image(src, s, d, own)
  {
    var part, image := PartImage(src, s, d, own, names), Image(src, s, d, own);
    assert Back(s, d, d) == s;
    forall p | p in image ensures p in part {
      PrefixCases(d, p);
      if d < p {
        BelowSomeChild(src, s, Back(s, d, p));
      }
    }
    assert image.Keys == part.Keys;
  }

  /** Anything but a directory has no children to copy. */
  lemma ImageOfLeaf(src: Fs, s: Path, d: Path, own: View)
    requires WellFormed(src) && s in src && !src[s].view.Dir?
    ensures Image(src, s, d, own) == map[d := own]
  {
    assert Back(s, d, d) == s;
    forall p | p in Image(src, s, d, own) ensures p == d {
      PrefixCases(d, p);
      if d < p {
        NothingBelow(src, s, Back(s, d, p));
      }
    }
  }

  // ---- The same, entry by entry ----

  /** A copied entry beside its source: the same contents, permission bits and
      owner, and at the top a directory as the builder makes it. */
  predicate SameEntry(from: View, to: View, top: bool) {
    match from
    case File(m, data) => to == File(Meta(m.mode % 4096, m.uid, m.gid), data)
    case Link(m, target) => to.Link? && to.target == target && to.meta.uid == m.uid && to.meta.gid == m.gid
    case Dir(m) => to == Dir(if top then Meta(0x1ED, 0, 0) else Meta(m.mode % 4096, m.uid, m.gid))
    case Special(_) => false
  }

  /** Every entry of the tree at `s` has arrived below `d`. */
  ghost predicate Arrives(src: Fs, s: Path, d: Path, fs: Fs) {
    forall q :: q in src && s <= q ==> d + q[|s|..] in fs && SameEntry(src[q].view, fs[d + q[|s|..]].view, q == s)
  }

  /** Something that is no directory was copied to a place above `p`. */
  ghost predicate Replaced(src: Fs, s: Path, d: Path, p: Path) {
    exists k :: |d| <= k < |p| && d <= p && s + p[|d|..k] in src && !src[s + p[|d|..k]].view.Dir?
  }

  /** Where nothing arrives, the directories above `d` are the builder's, what
      was below a replaced directory is gone, and all else is as it was. */
  ghost predicate RestStays(src: Fs, s: Path, d: Path, fs: Fs, fs': Fs) {
    forall p :: !(d <= p && s + p[|d|..] in src) ==>
      if 0 < |p| < |d| && p < d then p in fs' && fs'[p].view == Dir(Meta(0x1ED, 0, 0))
      else (p in fs' <==> p in fs && !Replaced(src, s, d, p)) && (p in fs' ==> fs'[p].view == fs[p].view)
  }

  lemma LayerArrives(src: Fs, s: Path, d: Path, base: Layer, fs: Fs)
    requires s in src && Erase(fs) == Overlay(base, CopyLayer(src, s, d))
    requires forall q :: q in src && s <= q ==> !src[q].view.Special?
    ensures Arrives(src, s, d, fs)
  {
    hide Directories, Image, Overlay, Erase;
    forall q | q in src && s <= q ensures d + q[|s|..] in fs && SameEntry(src[q].view, fs[d + q[|s|..]].view, q == s) {
      var p := d + q[|s|..];
      assert d <= p && p[|d|..] == q[|s|..] && Back(s, d, p) == q;
      assert p in Image(src, s, d, CopiedTop(src[s].view)) && p in Erase(fs);
      assert p == d <==> q == s;
    }
  }

  lemma LayerHides(src: Fs, s: Path, d: Path, p: Path)
    requires s in src
    ensures Shadowed(CopyLayer(src, s, d), p) <==> Replaced(src, s, d, p)
  {
    hide Directories, Image;
    var layer := CopyLayer(src, s, d);
    if Shadowed(layer, p) {
      var k :| 0 <= k < |p| && p[..k] in layer && !layer[p[..k]].Dir?;
      assert p[..k] in Image(src, s, d, CopiedTop(src[s].view)) && d <= p[..k];
      assert Back(s, d, p[..k]) == s + p[|d|..k];
      assert p[..k] == d ==> s + p[|d|..k] == s;
    }
    if Replaced(src, s, d, p) {
      var k :| |d| <= k < |p| && d <= p && s + p[|d|..k] in src && !src[s + p[|d|..k]].view.Dir?;
      assert d <= p[..k] && Back(s, d, p[..k]) == s + p[|d|..k];
      assert p[..k] == d ==> s + p[|d|..k] == s;
      assert p[..k] in Image(src, s, d, CopiedTop(src[s].view)) && p[..k] in layer;
    }
  }

  lemma LayerRestStays(src: Fs, s: Path, d: Path, base: Fs, fs: Fs)
    requires s in src && Erase(fs) == Overlay(Erase(base), CopyLayer(src, s, d))
    ensures RestStays(src, s, d, base, fs)
  {
    hide Directories, Image, Overlay, Erase, Shadowed, Replaced;
    var layer := CopyLayer(src, s, d);
    forall p | !(d <= p && s + p[|d|..] in src)
      ensures if 0 < |p| < |d| && p < d then p in fs && fs[p].view == Dir(Meta(0x1ED, 0, 0))
              else (p in fs <==> p in base && !Replaced(src, s, d, p)) && (p in fs ==> fs[p].view == base[p].view)
    {
      LayerHides(src, s, d, p);
      assert p in fs <==> p in Erase(fs);
      assert p in Erase(base) <==> p in base;
      assert p !in Image(src, s, d, CopiedTop(src[s].view));
    }
  }
}
