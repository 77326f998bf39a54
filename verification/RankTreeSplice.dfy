/**
 The pointer surgery at the start of RB_REMOVE: the node that goes away is replaced by its only
 child, or by its successor. Both leave a context whose hole has shrunk, for REMOVE_COLOR to repair.
 */
module RankTreeSplice {
  import opened RankTree
  import opened RankTreeHeap

  // ---------------------------------------------------------------- at most one child

  /** `out` is replaced by its only child `x`, whose parent pointer is stored without bits. */
  function BypassMem(m: Mem, out: Node, x: Node?): Mem
    requires out in m && (m[out].up != null ==> m[out].up in m)
    requires x != null ==> x in m
  {
    var m1 := Swapped(m, m[out].up, out, x);
    if x == null then m1 else m1[x := m1[x].(up := m[out].up, redL := false, redR := false)]
  }

  method Bypass(h: Head, out: Node, x: Node?, ghost s: set<Node>)
    requires out in s && (out.up != null ==> out.up in s && out.up != out) && (x != null ==> x in s)
    modifies h`root, s
    ensures Snap(s) == BypassMem(old(Snap(s)), out, x)
    ensures h.root == if old(out.up) == null then x else old(h.root)
  {
    var par := out.up;
    h.SwapChild(par, out, x, s);
    if x != null {
      SetUpBits(x, par, false, false, s);
    }
  }

  lemma BypassHangs(m: Mem, root: Node?, c: Ctx<Node>, t: Tree<Node>, d: Dir)
    requires Hangs(m, root, c, t) && t.Bin? && t.Child(d).Nil?
    requires var u := t.Child(d.Other()); u.Bin? ==> !u.redL && !u.redR
    ensures var u := t.Child(d.Other());
            && t.n in m && m[t.n].up == Parent(c) && (Parent(c) != null ==> Parent(c) in m && Parent(c) != t.n)
            && (Root(u) != null ==> Root(u) in m)
            && Hangs(BypassMem(m, t.n, Root(u)), if Parent(c) == null then Root(u) else root, c, u)
  {
    var u := t.Child(d.Other());
    Inner(m, t, Parent(c), d);
    Halves(t, d);
    ParentIn(m, root, c, t.n);
    SwappedShape(m, root, c, t.n, Root(u));
    var m1, m' := Swapped(m, Parent(c), t.n, Root(u)), BypassMem(m, t.n, Root(u));
    CtxFrame(m1, m', if Parent(c) == null then Root(u) else root, c, Root(u));
    ShapeReparent(m, m', u, t.n, Parent(c));
  }

  // ---------------------------------------------------------------- two children

  /** A context that hangs below the node `p` instead of below the head. */
  ghost predicate Part(m: Mem, k: Ctx<Node>, p: Node?, hole: Node?)
  {
    match k
    case Top => true
    case Hole(n, d, _, _, _, up) =>
      Side(m, k) && m[n].up == (if up.Top? then p else Parent(up)) && m[n].Link(d) == hole && Part(m, up, p, n)
  }

  /** The uppermost node of `k`, or else of what is in its hole. */
  function Peak(k: Ctx<Node>, hole: Node): Node
  {
    if k.Top? then hole else Peak(k.up, k.n)
  }

  lemma {:induction false} PeakIn(k: Ctx<Node>, hole: Node)
    requires k.Hole?
    ensures Peak(k, hole) in CtxNodes(k)
  {
    if k.up.Hole? {
      PeakIn(k.up, k.n);
    }
  }

  lemma {:induction false} ExtendShape(m: Mem, root: Node?, k: Ctx<Node>, o: Ctx<Node>, hole: Node)
    ensures CtxShape(m, root, Extend(k, o), hole) <==> Part(m, k, Parent(o), hole) && CtxShape(m, root, o, Peak(k, hole))
    ensures Parent(Extend(k, o)) == if k.Top? then Parent(o) else k.n
  {
    if k.Hole? {
      ExtendShape(m, root, k.up, o, k.n);
      assert Parent(Extend(k.up, o)) == if k.up.Top? then Parent(o) else k.up.n;
      assert Side(m, Extend(k, o)) == Side(m, k);
    }
  }

  /** As ExtendShape, for a hole that may be null. */
  lemma ExtendShapeHole(m: Mem, root: Node?, k: Ctx<Node>, o: Ctx<Node>, hole: Node?)
    requires k.Hole? && Part(m, k, Parent(o), hole) && CtxShape(m, root, o, Peak(k.up, k.n))
    ensures CtxShape(m, root, Extend(k, o), hole)
  {
    ExtendShape(m, root, k.up, o, k.n);
    assert Side(m, Extend(k, o)) == Side(m, k);
  }

  lemma {:induction false} ExtendNodes(k: Ctx<Node>, o: Ctx<Node>)
    ensures CtxNodes(Extend(k, o)) == CtxNodes(k) + CtxNodes(o)
    ensures CtxDistinct(Extend(k, o)) <==> CtxDistinct(k) && CtxDistinct(o) && CtxNodes(k) !! CtxNodes(o)
  {
    if k.Hole? {
      ExtendNodes(k.up, o);
    }
  }

  lemma {:induction false} PartFrame(m: Mem, m': Mem, k: Ctx<Node>, p: Node?, hole: Node?)
    requires Part(m, k, p, hole) && forall n <- CtxNodes(k) :: n in m ==> n in m' && m'[n] == m[n]
    ensures Part(m', k, p, hole)
  {
    if k.Hole? {
      ShapeFrame(m, m', k.sib, k.n);
      PartFrame(m, m', k.up, p, k.n);
    }
  }

  /** The lowest node of the part gets another child in place of the hole. */
  lemma PartBottom(m: Mem, m': Mem, k: Ctx<Node>, p: Node?, hole: Node?, hole': Node?)
    requires k.Hole? && Part(m, k, p, hole) && CtxDistinct(k)
    requires k.n in m && k.n in m' && m'[k.n] == m[k.n].SetLink(k.dir, hole')
    requires forall n <- CtxNodes(k) :: n in m && n != k.n ==> n in m' && m'[n] == m[n]
    ensures Part(m', k, p, hole')
  {
    ShapeFrame(m, m', k.sib, k.n);
    PartFrame(m, m', k.up, p, k.n);
  }

  /** The uppermost node of the part gets another parent. */
  lemma {:induction false} PartPeak(m: Mem, m': Mem, k: Ctx<Node>, p: Node?, p': Node?, hole: Node)
    requires k.Hole? && Part(m, k, p, hole) && CtxDistinct(k)
    requires var t := Peak(k, hole); t in m && t in m' && m'[t] == m[t].(up := p')
    requires forall n <- CtxNodes(k) :: n in m && n != Peak(k, hole) ==> n in m' && m'[n] == m[n]
    ensures Part(m', k, p', hole)
  {
    if k.up.Hole? {
      PeakIn(k.up, k.n);
      ShapeFrame(m, m', k.sib, k.n);
      PartPeak(m, m', k.up, p, p', k.n);
    } else {
      ShapeFrame(m, m', k.sib, k.n);
    }
  }

  /** The pieces of a tree whose node `out`, with left subtree `l`, has its successor `nx` at the
      end of the left spine `k` of its right subtree; `rest` is the right subtree of `nx`. */
  datatype Pieces = Pieces(c: Ctx<Node>, out: Node, l: Tree<Node>, redL: bool, redR: bool,
                           k: Ctx<Node>, nx: Node, rest: Tree<Node>)
  {
    /** The parent of `nx`. */
    function Low(): Node { if k.Top? then out else k.n }
  }

  ghost predicate Separate(p: Pieces)
  {
    && CtxDistinct(p.c) && Distinct(p.l) && CtxDistinct(p.k) && Distinct(p.rest)
    && CtxNodes(p.c) !! {p.out} !! Nodes(p.l) !! CtxNodes(p.k) !! {p.nx} !! Nodes(p.rest)
    && p.l.Bin? && (p.k.Hole? ==> p.k.dir == Left)
    && (p.rest.Bin? ==> !p.rest.redL && !p.rest.redR)
  }

  ghost predicate Layout(m: Mem, root: Node?, p: Pieces)
  {
    && Separate(p)
    && CtxShape(m, root, p.c, p.out)
    && p.out in m && m[p.out] == Cell(Parent(p.c), Root(p.l), Peak(p.k, p.nx), p.redL, p.redR)
    && Shape(m, p.l, p.out)
    && Part(m, p.k, p.out, p.nx)
    && p.nx in m && m[p.nx].up == p.Low() && m[p.nx].left == null && m[p.nx].right == Root(p.rest)
    && Shape(m, p.rest, p.nx)
  }

  function PiecesOf(c: Ctx<Node>, t: Tree<Node>): Pieces
    requires t.Bin? && t.l.Bin? && t.r.Bin?
  {
    var (k, m) := Leftmost(Top, t.r);
    Pieces(c, t.n, t.l, t.redL, t.redR, k, m.n, m.r)
  }

  lemma {:induction false} LeftmostDir(k: Ctx<Node>, t: Tree<Node>)
    requires t.Bin? && (k.Hole? ==> k.dir == Left)
    ensures var r := Leftmost(k, t).0; r.Hole? ==> r.dir == Left
    decreases t
  {
    if t.l.Bin? {
      LeftmostDir(Hole(t.n, Left, t.r, t.redL, t.redR, k), t.l);
    }
  }

  lemma SeparateIntro(c: Ctx<Node>, t: Tree<Node>)
    requires Apart(c, t) && t.Bin? && t.l.Bin? && t.r.Bin?
    requires var u := Leftmost(Top, t.r).1.r; u.Bin? ==> !u.redL && !u.redR
    ensures Separate(PiecesOf(c, t))
  {
    var (k, u) := Leftmost(Top, t.r);
    LeftmostDir(Top, t.r);
    PlugNodes(k, u);
    Halves(t, Left);
    ApartOfPlug(k, u);
    Halves(u, Left);
  }

  lemma {:induction false} ApartOfPlug(k: Ctx<Node>, u: Tree<Node>)
    requires Distinct(Plug(k, u))
    ensures Apart(k, u)
    decreases k
  {
    if k.Hole? {
      MkNodes(k.n, k.dir, u, k.sib, k.redHole, k.redSib);
      ApartOfPlug(k.up, Mk(k.n, k.dir, u, k.sib, k.redHole, k.redSib));
    }
  }

  /** The spine and what is below it, as part of the whole. */
  lemma SpineShape(m: Mem, root: Node?, c: Ctx<Node>, t: Tree<Node>)
    requires Hangs(m, root, c, t) && t.Bin? && t.r.Bin?
    ensures var (k, u) := Leftmost(Top, t.r);
            && Part(m, k, t.n, u.n) && Peak(k, u.n) == t.r.n
            && Shape(m, u, if k.Top? then t.n else k.n)
  {
    var (k, u) := Leftmost(Top, t.r);
    var o := Hole(t.n, Right, t.l, t.redR, t.redL, c);
    HangsUp(m, root, o, t.r);
    HangsPlug(m, root, o, t.r);
    ExtendPlug(k, o, u);
    HangsPlug(m, root, Extend(k, o), u);
    ExtendShape(m, root, k, o, u.n);
  }

  lemma LayoutIntro(m: Mem, root: Node?, c: Ctx<Node>, t: Tree<Node>)
    requires Hangs(m, root, c, t) && t.Bin? && t.l.Bin? && t.r.Bin?
    requires var u := Leftmost(Top, t.r).1.r; u.Bin? ==> !u.redL && !u.redR
    ensures Layout(m, root, PiecesOf(c, t))
  {
    var (k, u) := Leftmost(Top, t.r);
    SeparateIntro(c, t);
    SpineShape(m, root, c, t);
    hide Separate, Part, CtxShape, Apart, Distinct;
    assert u.Bin? && u.l.Nil?;
    ShapeMk(m, u.n, Left, u.l, u.r, u.redL, u.redR, if k.Top? then t.n else k.n);
    ShapeMk(m, t.n, Left, t.l, t.r, t.redL, t.redR, Parent(c));
  }

  /** What the stores of RB_REMOVE for a node with two children read and write. */
  ghost predicate Spliceable(m: Mem, out: Node, nx: Node)
  {
    && out in m && nx in m && out != nx
    && (var l := m[out].left; l != null && l in m && l != out && l != nx)
    && (var r := m[out].right; r != null && r in m && r != out && r != m[out].left)
    && (var low := m[nx].up; low != null && low in m && low != nx && low != m[out].left && (m[out].right != nx ==> low != out))
    && (var x := m[nx].right; x != null ==>
          x in m && x != out && x != nx && x != m[out].left && x != m[out].right && x != m[nx].up)
    && (var o := m[out].up; o != null ==>
          o in m && o != out && o != nx && o != m[out].left && o != m[out].right && o != m[nx].up && o != m[nx].right)
  }

  ghost function SpliceMem(m: Mem, out: Node, nx: Node): Mem
    requires Spliceable(m, out, nx)
  {
    var l, r, low, child := m[out].left, m[out].right, m[nx].up, m[nx].right;
    var m1 := m[l := m[l].(up := nx)];
    var m2 := m1[nx := m1[nx].(left := l)];
    var m3 := if r == nx then m2 else LowerMem(m2, nx, r, low, child);
    var m4 := m3[nx := m3[nx].(up := m[out].up, redL := m[out].redL, redR := m[out].redR)];
    var m5 := Swapped(m4, m[out].up, out, nx);
    if child == null then m5 else m5[child := m5[child].(up := if r == nx then nx else low, redL := false, redR := false)]
  }

  /** When the successor is not the right child itself, it gets the right subtree, and its old
      parent gets what was below it. */
  function LowerMem(m: Mem, nx: Node, r: Node, low: Node, child: Node?): Mem
    requires nx in m && r in m && low in m
  {
    var a := m[r := m[r].(up := nx)];
    var b := a[nx := a[nx].(right := r)];
    b[low := b[low].(left := child)]
  }

  lemma SpliceCells(m: Mem, out: Node, nx: Node)
    requires Spliceable(m, out, nx)
    ensures var l, r, low, child, o := m[out].left, m[out].right, m[nx].up, m[nx].right, m[out].up;
            var m' := SpliceMem(m, out, nx);
            && m'.Keys == m.Keys
            && m'[l] == m[l].(up := nx)
            && m'[nx] == Cell(o, l, if r == nx then child else r, m[out].redL, m[out].redR)
            && (r != nx && r != low ==> m'[r] == m[r].(up := nx) && m'[low] == m[low].(left := child))
            && (r != nx && r == low ==> m'[r] == m[r].(up := nx, left := child))
            && (child != null ==> m'[child] == m[child].(up := if r == nx then nx else low, redL := false, redR := false))
            && (o != null ==> m'[o] == m[o].SetLink(if out == m[o].left then Left else Right, nx))
            && forall n <- m :: n != l && n != nx && n != child && n != o && (r == nx || (n != r && n != low)) ==> m'[n] == m[n]
  {
  }

  lemma LayoutSpliceable(m: Mem, root: Node?, p: Pieces)
    requires Layout(m, root, p)
    ensures Spliceable(m, p.out, p.nx)
    ensures p.k.Top? <==> m[p.out].right == p.nx
  {
    ParentIn(m, root, p.c, p.out);
    if p.k.Hole? {
      PeakIn(p.k, p.nx);
      PeakCell(m, p.k, p.out, p.nx);
    }
    assert p.l.n in Nodes(p.l);
    assert p.rest.Bin? ==> p.rest.n in Nodes(p.rest);
  }

  lemma {:induction false} PeakCell(m: Mem, k: Ctx<Node>, p: Node?, hole: Node)
    requires Part(m, k, p, hole) && k.Hole?
    ensures Peak(k, hole) in m && k.n in m && k.n in CtxNodes(k)
  {
    if k.up.Hole? {
      PeakCell(m, k.up, p, k.n);
    }
  }

  /** The spine after the stores: it hangs below the successor, and its hole has what was there. */
  lemma SplicePart(m: Mem, root: Node?, p: Pieces)
    requires Layout(m, root, p) && p.k.Hole? && Spliceable(m, p.out, p.nx)
    ensures Part(SpliceMem(m, p.out, p.nx), p.k, p.nx, Root(p.rest))
  {
    var k, top := p.k, Peak(p.k, p.nx);
    LayoutSpliceable(m, root, p);
    SpliceCells(m, p.out, p.nx);
    PeakIn(k, p.nx);
    PeakCell(m, k, p.out, p.nx);
    ParentIn(m, root, p.c, p.out);
    var mid, m' := m[top := m[top].(up := p.nx)], SpliceMem(m, p.out, p.nx);
    PartPeak(m, mid, k, p.out, p.nx, p.nx);
    assert p.l.n in Nodes(p.l) && (p.rest.Bin? ==> p.rest.n in Nodes(p.rest));
    hide Part, CtxShape, Shape, Distinct, CtxDistinct, Nodes, CtxNodes, SpliceMem, Spliceable;
    PartBottom(mid, m', k, p.nx, p.nx, Root(p.rest));
  }

  /** Where the rank shrinks after the successor has taken the place of `out`. */
  function SplicedCtx(p: Pieces): Ctx<Node>
  {
    Extend(p.k, Hole(p.nx, Right, p.l, p.redR, p.redL, p.c))
  }

  lemma SpliceApart(p: Pieces)
    requires Separate(p)
    ensures Apart(SplicedCtx(p), p.rest)
    ensures CtxNodes(SplicedCtx(p)) == CtxNodes(p.k) + ({p.nx} + Nodes(p.l) + CtxNodes(p.c))
  {
    var o := Hole(p.nx, Right, p.l, p.redR, p.redL, p.c);
    assert CtxNodes(o) == {p.nx} + Nodes(p.l) + CtxNodes(p.c);
    ExtendNodes(p.k, o);
  }

  /** The nodes outside the spine that the stores change. */
  lemma SpliceFrames(m: Mem, root: Node?, p: Pieces)
    requires Layout(m, root, p) && Spliceable(m, p.out, p.nx)
    ensures var m', top := SpliceMem(m, p.out, p.nx), if p.k.Top? then p.nx else p.k.n;
            && m'.Keys == m.Keys
            && m'[p.nx] == Cell(Parent(p.c), Root(p.l), if p.k.Top? then Root(p.rest) else Peak(p.k, p.nx), p.redL, p.redR)
            && (Parent(p.c) != null ==> Parent(p.c) in m && m'[Parent(p.c)] == Swapped(m, Parent(p.c), p.out, p.nx)[Parent(p.c)])
            && (forall n <- CtxNodes(p.c) :: n in m && n != Parent(p.c) ==> m'[n] == m[n])
            && p.l.n in m && m'[p.l.n] == m[p.l.n].(up := p.nx)
            && (forall n <- Nodes(p.l) :: n in m && n != p.l.n ==> m'[n] == m[n])
            && (p.rest.Bin? ==> p.rest.n in m && m'[p.rest.n] == m[p.rest.n].(up := top, redL := false, redR := false))
            && (forall n <- Nodes(p.rest) :: n in m && n != Root(p.rest) ==> m'[n] == m[n])
  {
    LayoutSpliceable(m, root, p);
    SpliceCells(m, p.out, p.nx);
    ParentIn(m, root, p.c, p.out);
    if p.k.Hole? {
      PeakIn(p.k, p.nx);
      PeakCell(m, p.k, p.out, p.nx);
    }
    assert p.l.n in Nodes(p.l) && (p.rest.Bin? ==> p.rest.n in Nodes(p.rest));
    hide Part, CtxShape, Shape, Distinct, CtxDistinct, CtxNodes, Nodes, SpliceMem, Spliceable;
  }

  lemma SpliceCtx(m: Mem, root: Node?, p: Pieces)
    requires Layout(m, root, p) && Spliceable(m, p.out, p.nx)
    ensures CtxShape(SpliceMem(m, p.out, p.nx), if Parent(p.c) == null then p.nx else root, p.c, p.nx)
  {
    SpliceFrames(m, root, p);
    SwappedShape(m, root, p.c, p.out, p.nx);
    var m1 := Swapped(m, Parent(p.c), p.out, p.nx);
    hide *;
    CtxFrame(m1, SpliceMem(m, p.out, p.nx), if Parent(p.c) == null then p.nx else root, p.c, p.nx);
  }

  lemma SpliceTrees(m: Mem, root: Node?, p: Pieces)
    requires Layout(m, root, p) && Spliceable(m, p.out, p.nx)
    ensures Shape(SpliceMem(m, p.out, p.nx), p.l, p.nx)
    ensures Shape(SpliceMem(m, p.out, p.nx), p.rest, if p.k.Top? then p.nx else p.k.n)
  {
    var m', top := SpliceMem(m, p.out, p.nx), if p.k.Top? then p.nx else p.k.n;
    SpliceFrames(m, root, p);
    assert p.rest.Bin? ==> m[p.rest.n].redL == p.rest.redL && m[p.rest.n].redR == p.rest.redR;
    hide Part, CtxShape, Shape, Distinct, CtxDistinct, CtxNodes, Nodes, SpliceMem, Spliceable;
    ShapeReparent(m, m', p.l, p.out, p.nx);
    ShapeReparent(m, m', p.rest, p.nx, top);
  }

  /** The successor, with what it has taken over, above the spine. */
  lemma SpliceSide(m: Mem, root: Node?, p: Pieces)
    requires Layout(m, root, p) && Spliceable(m, p.out, p.nx)
    ensures var m', root' := SpliceMem(m, p.out, p.nx), if Parent(p.c) == null then p.nx else root;
            CtxShape(m', root', Hole(p.nx, Right, p.l, p.redR, p.redL, p.c), if p.k.Top? then Root(p.rest) else Peak(p.k, p.nx))
  {
    SpliceFrames(m, root, p);
    SpliceCtx(m, root, p);
    SpliceTrees(m, root, p);
    var m', root' := SpliceMem(m, p.out, p.nx), if Parent(p.c) == null then p.nx else root;
    assert p.nx in m';
    hide SpliceMem, Layout, Spliceable, Shape;
  }

  /** After the stores the tree hangs together again, without `out`. */
  lemma SpliceHangs(m: Mem, root: Node?, p: Pieces)
    requires Layout(m, root, p) && Spliceable(m, p.out, p.nx)
    ensures var root' := if Parent(p.c) == null then p.nx else root;
            && Hangs(SpliceMem(m, p.out, p.nx), root', SplicedCtx(p), p.rest)
            && Parent(SplicedCtx(p)) == if p.k.Top? then p.nx else p.k.n
  {
    var m', root' := SpliceMem(m, p.out, p.nx), if Parent(p.c) == null then p.nx else root;
    var o := Hole(p.nx, Right, p.l, p.redR, p.redL, p.c);
    SpliceSide(m, root, p);
    SpliceTrees(m, root, p);
    SpliceApart(p);
    hide Layout, Separate, Spliceable, SpliceMem, CtxShape, Shape, Part, Apart;
    if p.k.Hole? {
      SplicePart(m, root, p);
      assert Peak(p.k, p.nx) == Peak(p.k.up, p.k.n);
      ExtendShapeHole(m', root', p.k, o, Root(p.rest));
    }
  }

  method Lower(nx: Node, r: Node, low: Node, child: Node?, ghost s: set<Node>)
    requires nx in s && r in s && low in s
    modifies s
    ensures Snap(s) == LowerMem(old(Snap(s)), nx, r, low, child)
  {
    r.SetUp(nx, s);
    nx.SetLink(Right, r, s);
    low.SetLink(Left, child, s);
  }

  /** The stores of RB_REMOVE that put the successor `nx` in the place of `out`; returns the parent
      of the place where the rank has shrunk, and what is there now. */
  method Splice(h: Head, out: Node, nx: Node, ghost s: set<Node>) returns (par: Node, child: Node?)
    requires Spliceable(Snap(s), out, nx)
    modifies h`root, s
    ensures Snap(s) == SpliceMem(old(Snap(s)), out, nx)
    ensures h.root == if old(out.up) == null then nx else old(h.root)
    ensures child == old(nx.right) && par == if old(out.right) == nx then nx else old(nx.up)
  {
    var l, r, opar := out.left, out.right, out.up;
    var redL, redR := out.redL, out.redR;
    ghost var m := Snap(s);
    Adopt(l, nx, s);
    child := nx.right;
    par := r;
    if r != nx {
      par := nx.up;
      Lower(nx, r, par, child, s);
    }
    assert par == if r == nx then nx else m[nx].up;
    FinishSplice(h, out, nx, opar, redL, redR, par, child, s);
  }

  /** The successor takes over the left subtree. */
  method Adopt(l: Node, nx: Node, ghost s: set<Node>)
    requires l in s && nx in s && l != nx
    modifies s
    ensures var m1 := old(Snap(s))[l := old(Snap(s))[l].(up := nx)]; Snap(s) == m1[nx := m1[nx].(left := l)]
  {
    l.SetUp(nx, s);
    nx.SetLink(Left, l, s);
  }

  method FinishSplice(h: Head, out: Node, nx: Node, opar: Node?, redL: bool, redR: bool,
                      par: Node, child: Node?, ghost s: set<Node>)
    requires nx in s && (opar != null ==> opar in s) && (child != null ==> child in s)
    modifies h`root, s
    ensures var m4 := old(Snap(s))[nx := old(Snap(s))[nx].(up := opar, redL := redL, redR := redR)];
            var m5 := Swapped(m4, opar, out, nx);
            Snap(s) == if child == null then m5 else m5[child := m5[child].(up := par, redL := false, redR := false)]
    ensures h.root == if opar == null then nx else old(h.root)
  {
    SetUpBits(nx, opar, redL, redR, s);
    h.SwapChild(opar, out, nx, s);
    if child != null {
      SetUpBits(child, par, false, false, s);
    }
  }

  /** A store to the `up` word of a node: the pointer and both bits. */
  method SetUpBits(n: Node, up: Node?, redL: bool, redR: bool, ghost s: set<Node>)
    requires n in s
    modifies n`up, n`redL, n`redR
    ensures Snap(s) == old(Snap(s))[n := old(Snap(s))[n].(up := up, redL := redL, redR := redR)]
  {
    n.up, n.redL, n.redR := up, redL, redR;
  }
}
