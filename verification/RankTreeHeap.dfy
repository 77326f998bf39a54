/**
 The rank-balanced tree macros of tree.h on linked nodes.

 A node has an `up` pointer, two child pointers and the two red bits that C keeps in the low bits
 of `up`. The methods rewrite these fields in place. `Snap` is the contents of a set of nodes as a
 map, `Shape` and `CtxShape` say which tree or context such contents form, and every method is
 specified by the RankTree function it computes on that tree.
 */
module RankTreeHeap {
  import opened RankTree

  datatype Cell = Cell(up: Node?, left: Node?, right: Node?, redL: bool, redR: bool)
  {
    function Link(d: Dir): Node? { if d == Left then left else right }

    function Red(d: Dir): bool { if d == Left then redL else redR }

    function SetLink(d: Dir, x: Node?): Cell
    {
      if d == Left then this.(left := x) else this.(right := x)
    }

    function Flip(d: Dir): Cell
    {
      if d == Left then this.(redL := !redL) else this.(redR := !redR)
    }

    function FlipBoth(): Cell { this.(redL := !redL, redR := !redR) }

    function SetReds(d: Dir, near: bool, far: bool): Cell
    {
      if d == Left then this.(redL := near, redR := far) else this.(redL := far, redR := near)
    }
  }

  type Mem = map<Node, Cell>

  ghost function Snap(s: set<Node>): (m: Mem)
    reads s
    ensures m.Keys == s
  {
    map n | n in s :: Cell(n.up, n.left, n.right, n.redL, n.redR)
  }

  class Node {
    const key: int
    var up: Node?
    var left: Node?
    var right: Node?
    var redL: bool
    var redR: bool

    constructor (key: int)
      ensures this.key == key
    {
      this.key := key;
      up, left, right, redL, redR := null, null, null, false, false;
    }

    function Link(d: Dir): Node?
      reads this
    { if d == Left then left else right }

    function Red(d: Dir): bool
      reads this
    { if d == Left then redL else redR }

    method SetUp(x: Node?, ghost s: set<Node>)
      requires this in s
      modifies `up
      ensures Snap(s) == old(Snap(s))[this := old(Snap(s))[this].(up := x)]
    {
      up := x;
    }

    method SetLink(d: Dir, x: Node?, ghost s: set<Node>)
      requires this in s
      modifies `left, `right
      ensures Snap(s) == old(Snap(s))[this := old(Snap(s))[this].SetLink(d, x)]
    {
      if d == Left { left := x; } else { right := x; }
    }

    /** `_RB_BITSUP(this) ^= d` */
    method Flip(d: Dir, ghost s: set<Node>)
      requires this in s
      modifies `redL, `redR
      ensures Snap(s) == old(Snap(s))[this := old(Snap(s))[this].Flip(d)]
    {
      if d == Left { redL := !redL; } else { redR := !redR; }
    }

    /** `_RB_BITSUP(this) ^= _RB_LR` */
    method FlipBoth(ghost s: set<Node>)
      requires this in s
      modifies `redL, `redR
      ensures Snap(s) == old(Snap(s))[this := old(Snap(s))[this].FlipBoth()]
    {
      redL, redR := !redL, !redR;
    }

    /** Both bits at once; a store that puts a pointer without tag bits into `up` clears both. */
    method SetReds(d: Dir, near: bool, far: bool, ghost s: set<Node>)
      requires this in s
      modifies `redL, `redR
      ensures Snap(s) == old(Snap(s))[this := old(Snap(s))[this].SetReds(d, near, far)]
    {
      if d == Left { redL, redR := near, far; } else { redL, redR := far, near; }
    }
  }

  // ---------------------------------------------------------------- shapes

  ghost function Root(t: Tree<Node>): Node?
  {
    if t.Nil? then null else t.n
  }

  ghost function Parent(c: Ctx<Node>): Node?
  {
    if c.Top? then null else c.n
  }

  ghost function Nodes(t: Tree<Node>): set<Node>
  {
    match t
    case Nil => {}
    case Bin(n, l, r, _, _) => {n} + Nodes(l) + Nodes(r)
  }

  ghost function CtxNodes(c: Ctx<Node>): set<Node>
  {
    match c
    case Top => {}
    case Hole(n, _, s, _, _, up) => {n} + Nodes(s) + CtxNodes(up)
  }

  ghost predicate Distinct(t: Tree<Node>)
  {
    match t
    case Nil => true
    case Bin(n, l, r, _, _) =>
      Distinct(l) && Distinct(r) && n !in Nodes(l) && n !in Nodes(r) && Nodes(l) !! Nodes(r)
  }

  ghost predicate CtxDistinct(c: Ctx<Node>)
  {
    match c
    case Top => true
    case Hole(n, _, s, _, _, up) =>
      && Distinct(s) && CtxDistinct(up)
      && n !in Nodes(s) && n !in CtxNodes(up) && Nodes(s) !! CtxNodes(up)
  }

  /** The contents `m` below the parent `p` form the tree `t`. */
  ghost predicate Shape(m: Mem, t: Tree<Node>, p: Node?)
  {
    match t
    case Nil => true
    case Bin(n, l, r, a, b) =>
      && n in m && m[n] == Cell(p, Root(l), Root(r), a, b)
      && Shape(m, l, n) && Shape(m, r, n)
  }

  /** The node `n` of `c` points at its sibling tree and has the bits of `c`. */
  ghost predicate Side(m: Mem, c: Ctx<Node>)
    requires c.Hole?
  {
    && c.n in m
    && m[c.n].Link(c.dir.Other()) == Root(c.sib) && Shape(m, c.sib, c.n)
    && m[c.n].Red(c.dir) == c.redHole && m[c.n].Red(c.dir.Other()) == c.redSib
  }

  /** The contents `m` and the head pointer `root` around the subtree `hole` form the context `c`. */
  ghost predicate CtxShape(m: Mem, root: Node?, c: Ctx<Node>, hole: Node?)
  {
    match c
    case Top => root == hole
    case Hole(n, d, _, _, _, up) =>
      Side(m, c) && m[n].up == Parent(up) && m[n].Link(d) == hole && CtxShape(m, root, up, n)
  }

  ghost predicate Apart(c: Ctx<Node>, t: Tree<Node>)
  {
    CtxDistinct(c) && Distinct(t) && CtxNodes(c) !! Nodes(t)
  }

  /** The contents are the tree `t` hanging in the context `c`. */
  ghost predicate Hangs(m: Mem, root: Node?, c: Ctx<Node>, t: Tree<Node>)
  {
    CtxShape(m, root, c, Root(t)) && Shape(m, t, Parent(c)) && Apart(c, t)
  }

  /** The contents are the tree `t`. */
  ghost predicate Holds(m: Mem, root: Node?, t: Tree<Node>)
  {
    Hangs(m, root, Top, t)
  }

  lemma MkNodes(n: Node, d: Dir, near: Tree<Node>, far: Tree<Node>, a: bool, b: bool)
    ensures Nodes(Mk(n, d, near, far, a, b)) == {n} + Nodes(near) + Nodes(far)
    ensures Distinct(Mk(n, d, near, far, a, b)) <==>
            Distinct(near) && Distinct(far) && n !in Nodes(near) && n !in Nodes(far) && Nodes(near) !! Nodes(far)
  {
  }

  lemma ShapeMk(m: Mem, n: Node, d: Dir, near: Tree<Node>, far: Tree<Node>, a: bool, b: bool, p: Node?)
    ensures Shape(m, Mk(n, d, near, far, a, b), p) <==>
            && n in m && m[n].up == p && m[n].Link(d) == Root(near) && m[n].Link(d.Other()) == Root(far)
            && m[n].Red(d) == a && m[n].Red(d.Other()) == b
            && Shape(m, near, n) && Shape(m, far, n)
  {
  }

  lemma {:induction false} ShapeFrame(m: Mem, m': Mem, t: Tree<Node>, p: Node?)
    requires Shape(m, t, p) && forall n <- Nodes(t) :: n in m ==> n in m' && m[n] == m'[n]
    ensures Shape(m', t, p)
  {
    if t.Bin? {
      ShapeFrame(m, m', t.l, t.n);
      ShapeFrame(m, m', t.r, t.n);
    }
  }

  lemma ShapeReparent(m: Mem, m': Mem, t: Tree<Node>, p: Node?, q: Node?)
    requires Shape(m, t, p) && Distinct(t)
    requires forall n <- Nodes(t) :: n in m && n != Root(t) ==> n in m' && m[n] == m'[n]
    requires t.Bin? ==> t.n in m' && m'[t.n] == m[t.n].(up := q)
    ensures Shape(m', t, q)
  {
    if t.Bin? {
      ShapeFrame(m, m', t.l, t.n);
      ShapeFrame(m, m', t.r, t.n);
    }
  }

  lemma {:induction false} CtxFrame(m: Mem, m': Mem, root: Node?, c: Ctx<Node>, hole: Node?)
    requires CtxShape(m, root, c, hole) && forall n <- CtxNodes(c) :: n in m ==> n in m' && m[n] == m'[n]
    ensures CtxShape(m', root, c, hole)
  {
    if c.Hole? {
      ShapeFrame(m, m', c.sib, c.n);
      CtxFrame(m, m', root, c.up, c.n);
    }
  }

  /** One level up: the parent and the sibling belong to the tree instead of to the context. */
  lemma HangsUp(m: Mem, root: Node?, c: Ctx<Node>, t: Tree<Node>)
    requires c.Hole?
    ensures Hangs(m, root, c, t) <==> Hangs(m, root, c.up, Mk(c.n, c.dir, t, c.sib, c.redHole, c.redSib))
  {
    MkNodes(c.n, c.dir, t, c.sib, c.redHole, c.redSib);
    ShapeMk(m, c.n, c.dir, t, c.sib, c.redHole, c.redSib, Parent(c.up));
  }

  lemma {:induction false} HangsPlug(m: Mem, root: Node?, c: Ctx<Node>, t: Tree<Node>)
    ensures Hangs(m, root, c, t) <==> Holds(m, root, Plug(c, t))
    decreases c
  {
    if c.Hole? {
      HangsUp(m, root, c, t);
      HangsPlug(m, root, c.up, Mk(c.n, c.dir, t, c.sib, c.redHole, c.redSib));
    }
  }

  lemma {:induction false} PlugNodes(c: Ctx<Node>, t: Tree<Node>)
    ensures Nodes(Plug(c, t)) == CtxNodes(c) + Nodes(t)
    decreases c
  {
    if c.Hole? {
      MkNodes(c.n, c.dir, t, c.sib, c.redHole, c.redSib);
      PlugNodes(c.up, Mk(c.n, c.dir, t, c.sib, c.redHole, c.redSib));
    }
  }

  // ---------------------------------------------------------------- rotation

  /** RB_ROTATE on contents. */
  function Rotated(m: Mem, elm: Node, tmp: Node, dir: Dir): Mem
    requires elm in m && tmp in m && (m[tmp].Link(dir) != null ==> m[tmp].Link(dir) in m)
  {
    var moved := m[tmp].Link(dir);
    var m1 := m[elm := m[elm].SetLink(dir.Other(), moved)];
    var m2 := if moved == null then m1 else m1[moved := m1[moved].(up := elm)];
    var m3 := m2[tmp := m2[tmp].SetLink(dir, elm)];
    m3[elm := m3[elm].(up := tmp)]
  }

  method Rotate(elm: Node, tmp: Node, dir: Dir, ghost s: set<Node>)
    requires elm in s && tmp in s && (tmp.Link(dir) != null ==> tmp.Link(dir) in s)
    modifies s
    ensures Snap(s) == Rotated(old(Snap(s)), elm, tmp, dir)
  {
    var moved := tmp.Link(dir);
    elm.SetLink(dir.Other(), moved, s);
    if moved != null {
      moved.SetUp(elm, s);
    }
    tmp.SetLink(dir, elm, s);
    elm.SetUp(tmp, s);
  }

  /** RB_SWAP_CHILD on contents. */
  function Swapped(m: Mem, par: Node?, out: Node, in': Node?): Mem
    requires par != null ==> par in m
  {
    if par == null then m else m[par := m[par].SetLink(if out == m[par].left then Left else Right, in')]
  }

  class Head {
    var root: Node?
    ghost var tree: Tree<Node>

    method SwapChild(par: Node?, out: Node, in': Node?, ghost s: set<Node>)
      requires par != null ==> par in s
      modifies `root, s
      ensures root == if par == null then in' else old(root)
      ensures Snap(s) == Swapped(old(Snap(s)), par, out, in')
    {
      if par == null {
        root := in';
      } else if out == par.left {
        par.SetLink(Left, in', s);
      } else {
        par.SetLink(Right, in', s);
      }
    }
  }

  lemma {:induction false} SwappedShape(m: Mem, root: Node?, c: Ctx<Node>, out: Node, in': Node?)
    requires CtxShape(m, root, c, out) && CtxDistinct(c) && out !in CtxNodes(c)
    ensures var par := Parent(c);
            && (par != null ==> par in m)
            && var m' := Swapped(m, par, out, in');
            && CtxShape(m', if par == null then in' else root, c, in')
            && m'.Keys == m.Keys
            && forall n <- m :: n != par ==> m'[n] == m[n]
  {
    if c.Hole? {
      var m' := Swapped(m, c.n, out, in');
      assert c.sib.Bin? ==> c.sib.n in Nodes(c.sib);
      ShapeFrame(m, m', c.sib, c.n);
      CtxFrame(m, m', root, c.up, c.n);
    }
  }

  /** The tree `t`, which belongs on side `d` of `par`, takes the place of `par`. */
  function Lifted(par: Node, d: Dir, t: Tree<Node>, s: Tree<Node>, a: bool, b: bool): Tree<Node>
    requires t.Bin?
  {
    Mk(t.n, d, t.Child(d), Mk(par, d, t.Child(d.Other()), s, a, b), t.Red(d), t.Red(d.Other()))
  }

  /** `t` belongs in the hole of `c`, but the pointers between the two need not say so yet. */
  ghost predicate Loose(m: Mem, root: Node?, c: Ctx<Node>, t: Tree<Node>, q: Node?)
  {
    && c.Hole? && Side(m, c) && m[c.n].up == Parent(c.up) && CtxShape(m, root, c.up, c.n)
    && Shape(m, t, q) && Apart(c, t)
  }

  lemma Halves(t: Tree<Node>, d: Dir)
    requires t.Bin? && Distinct(t)
    ensures var x, y := t.Child(d), t.Child(d.Other());
            && Distinct(x) && Distinct(y) && t.n !in Nodes(x) && t.n !in Nodes(y) && Nodes(x) !! Nodes(y)
            && Nodes(t) == {t.n} + Nodes(x) + Nodes(y)
  {
  }

  lemma LiftedApart(c: Ctx<Node>, t: Tree<Node>)
    requires c.Hole? && t.Bin? && Apart(c, t)
    ensures Apart(c.up, Lifted(c.n, c.dir, t, c.sib, c.redHole, c.redSib))
    ensures CtxNodes(c.up) + Nodes(Lifted(c.n, c.dir, t, c.sib, c.redHole, c.redSib)) == CtxNodes(c) + Nodes(t)
  {
    var d := c.dir;
    var x, y := t.Child(d), t.Child(d.Other());
    var low := Mk(c.n, d, y, c.sib, c.redHole, c.redSib);
    Halves(t, d);
    MkNodes(c.n, d, y, c.sib, c.redHole, c.redSib);
    MkNodes(t.n, d, x, low, t.Red(d), t.Red(d.Other()));
  }

  /** A rotation that puts `top` above `par` and moves the tree between them changes three nodes. */
  ghost predicate Turned(m: Mem, m': Mem, par: Node, top: Node, d: Dir, p: Node?)
    requires par in m && top in m
  {
    var y := m[top].Link(d.Other());
    && m'.Keys == m.Keys
    && m'[par] == m[par].SetLink(d, y).(up := top)
    && m'[top] == m[top].SetLink(d.Other(), par).(up := p)
    && (y != null ==> y in m && m'[y] == m[y].(up := par))
    && forall n <- m :: n != par && n != top && n != y ==> m'[n] == m[n]
  }

  lemma RotatedTurned(m: Mem, par: Node, top: Node, d: Dir, p: Node?)
    requires par in m && top in m && par != top
    requires var y := m[top].Link(d.Other()); y != null ==> y in m && y != par && y != top
    ensures var m' := Rotated(m, par, top, d.Other());
            top in m' && Turned(m, m', par, top, d, m[top].up) && Turned(m, m'[top := m'[top].(up := p)], par, top, d, p)
  {
  }

  lemma LiftedShape(m: Mem, m': Mem, c: Ctx<Node>, t: Tree<Node>, q: Node?, p: Node?)
    requires c.Hole? && t.Bin? && Side(m, c) && Shape(m, t, q) && Turned(m, m', c.n, t.n, c.dir, p)
    requires Shape(m', t.Child(c.dir), t.n) && Shape(m', t.Child(c.dir.Other()), c.n) && Shape(m', c.sib, c.n)
    ensures Shape(m', Lifted(c.n, c.dir, t, c.sib, c.redHole, c.redSib), p)
  {
    var d := c.dir;
    var low := Mk(c.n, d, t.Child(d.Other()), c.sib, c.redHole, c.redSib);
    hide Shape;
    ShapeMk(m, t.n, d, t.Child(d), t.Child(d.Other()), t.Red(d), t.Red(d.Other()), q);
    ShapeMk(m', c.n, d, t.Child(d.Other()), c.sib, c.redHole, c.redSib, t.n);
    ShapeMk(m', t.n, d, t.Child(d), low, t.Red(d), t.Red(d.Other()), p);
  }

  /** Turning `t`, which belongs in the hole of `c`, above the parent of the hole. */
  lemma TurnedShape(m: Mem, m': Mem, c: Ctx<Node>, t: Tree<Node>, q: Node?, p: Node?)
    requires c.Hole? && t.Bin? && Side(m, c) && Shape(m, t, q) && Apart(c, t)
    requires Turned(m, m', c.n, t.n, c.dir, p)
    ensures Shape(m', Lifted(c.n, c.dir, t, c.sib, c.redHole, c.redSib), p)
    ensures forall n <- CtxNodes(c.up) :: n in m ==> m'[n] == m[n]
  {
    var par, top, d := c.n, t.n, c.dir;
    var x, y := t.Child(d), t.Child(d.Other());
    Halves(t, d);
    ShapeMk(m, top, d, x, y, t.Red(d), t.Red(d.Other()), q);
    assert y.Bin? ==> y.n in Nodes(y);
    ShapeFrame(m, m', x, top);
    ShapeReparent(m, m', y, top, par);
    ShapeFrame(m, m', c.sib, par);
    LiftedShape(m, m', c, t, q, p);
  }

  /** The child of `t` on side `d`, as far as a rotation is concerned. */
  lemma Inner(m: Mem, t: Tree<Node>, q: Node?, d: Dir)
    requires Shape(m, t, q) && t.Bin? && Distinct(t)
    ensures var x, y := t.Child(d), t.Child(d.Other());
            && t.n in m && m[t.n].Link(d) == Root(x) && m[t.n].Link(d.Other()) == Root(y)
            && m[t.n].Red(d) == t.Red(d) && m[t.n].Red(d.Other()) == t.Red(d.Other()) && m[t.n].up == q
            && Shape(m, x, t.n) && Shape(m, y, t.n)
            && (x.Bin? ==> x.n in m && x.n in Nodes(t) && x.n != t.n)
            && (y.Bin? ==> y.n in m && y.n in Nodes(t) && y.n != t.n)
  {
    Halves(t, d);
    ShapeMk(m, t.n, d, t.Child(d), t.Child(d.Other()), t.Red(d), t.Red(d.Other()), q);
  }

  lemma {:induction false} ParentIn(m: Mem, root: Node?, c: Ctx<Node>, hole: Node?)
    requires CtxShape(m, root, c, hole)
    ensures Parent(c) != null ==> Parent(c) in m && Parent(c) in CtxNodes(c)
  {
  }

  lemma SwappedHangs(m: Mem, root: Node?, c: Ctx<Node>, out: Node, t: Tree<Node>)
    requires CtxShape(m, root, c, out) && out !in CtxNodes(c) && Shape(m, t, Parent(c)) && Apart(c, t)
    ensures Parent(c) != null ==> Parent(c) in m
    ensures Hangs(Swapped(m, Parent(c), out, Root(t)), if Parent(c) == null then Root(t) else root, c, t)
  {
    ParentIn(m, root, c, out);
    SwappedShape(m, root, c, out, Root(t));
    ShapeFrame(m, Swapped(m, Parent(c), out, Root(t)), t, Parent(c));
  }

  lemma LooseInner(m: Mem, root: Node?, c: Ctx<Node>, t: Tree<Node>, q: Node?)
    requires Loose(m, root, c, t, q) && t.Bin?
    ensures c.n != t.n && c.n in m && t.n in m && m[c.n].up == Parent(c.up)
    ensures Parent(c.up) != null ==> Parent(c.up) in m
    ensures var y := m[t.n].Link(c.dir.Other()); y != null ==> y in m && y != c.n && y != t.n
  {
    Inner(m, t, q, c.dir);
    ParentIn(m, root, c.up, c.n);
  }

  lemma TurnedHangs(m: Mem, m': Mem, root: Node?, c: Ctx<Node>, t: Tree<Node>, q: Node?)
    requires Loose(m, root, c, t, q) && t.Bin?
    requires c.n in m && t.n in m && Turned(m, m', c.n, t.n, c.dir, Parent(c.up))
    ensures Parent(c.up) != null ==> Parent(c.up) in m'
    ensures Hangs(Swapped(m', Parent(c.up), c.n, t.n), if Parent(c.up) == null then t.n else root,
                  c.up, Lifted(c.n, c.dir, t, c.sib, c.redHole, c.redSib))
  {
    LiftedApart(c, t);
    TurnedShape(m, m', c, t, q, Parent(c.up));
    CtxFrame(m, m', root, c.up, c.n);
    SwappedHangs(m', root, c.up, c.n, Lifted(c.n, c.dir, t, c.sib, c.redHole, c.redSib));
  }

  /** The rotation that puts `top`, which belongs on side `d` of `par`, in the place of `par`. */
  function LiftMem(m: Mem, par: Node, top: Node, d: Dir): Mem
    requires par in m && top in m && (m[top].Link(d.Other()) != null ==> m[top].Link(d.Other()) in m)
    requires m[par].up != null ==> m[par].up in m
  {
    var m1 := Rotated(m, par, top, d.Other());
    Swapped(m1[top := m1[top].(up := m[par].up)], m[par].up, par, top)
  }

  method Lift(h: Head, par: Node, top: Node, d: Dir, ghost s: set<Node>)
    requires par in s && top in s && (top.Link(d.Other()) != null ==> top.Link(d.Other()) in s)
    requires par.up != null ==> par.up in s
    modifies h`root, s
    ensures Snap(s) == LiftMem(old(Snap(s)), par, top, d)
    ensures h.root == if old(par.up) == null then top else old(h.root)
  {
    var gpar := par.up;
    Rotate(par, top, d.Other(), s);
    top.SetUp(gpar, s);
    h.SwapChild(gpar, par, top, s);
  }

  lemma LiftHangs(m: Mem, root: Node?, c: Ctx<Node>, t: Tree<Node>, q: Node?)
    requires Loose(m, root, c, t, q) && t.Bin?
    ensures c.n in m && t.n in m && (m[t.n].Link(c.dir.Other()) != null ==> m[t.n].Link(c.dir.Other()) in m)
    ensures m[c.n].up == Parent(c.up) && (Parent(c.up) != null ==> Parent(c.up) in m)
    ensures Hangs(LiftMem(m, c.n, t.n, c.dir), if Parent(c.up) == null then t.n else root,
                  c.up, Lifted(c.n, c.dir, t, c.sib, c.redHole, c.redSib))
  {
    LooseInner(m, root, c, t, q);
    RotatedTurned(m, c.n, t.n, c.dir, Parent(c.up));
    var m1 := Rotated(m, c.n, t.n, c.dir.Other());
    TurnedHangs(m, m1[t.n := m1[t.n].(up := Parent(c.up))], root, c, t, q);
  }

  // ---------------------------------------------------------------- insertion

  /** Changing the bits of the root of `t`. */
  lemma RecolourRoot(m: Mem, root: Node?, c: Ctx<Node>, t: Tree<Node>, a: bool, b: bool)
    requires Hangs(m, root, c, t) && t.Bin?
    ensures t.n in m && Hangs(m[t.n := m[t.n].(redL := a, redR := b)], root, c, t.(redL := a, redR := b))
  {
    var m' := m[t.n := m[t.n].(redL := a, redR := b)];
    CtxFrame(m, m', root, c, t.n);
    ShapeFrame(m, m', t.l, t.n);
    ShapeFrame(m, m', t.r, t.n);
  }

  /** Changing the bits of the parent of the hole. */
  lemma RecolourParent(m: Mem, root: Node?, c: Ctx<Node>, t: Tree<Node>, a: bool, b: bool)
    requires Hangs(m, root, c, t) && c.Hole?
    ensures c.n in m
    ensures Hangs(m[c.n := m[c.n].SetReds(c.dir, a, b)], root, c.(redHole := a, redSib := b), t)
  {
    var m' := m[c.n := m[c.n].SetReds(c.dir, a, b)];
    CtxFrame(m, m', root, c.up, c.n);
    ShapeFrame(m, m', c.sib, c.n);
    ShapeFrame(m, m', t, c.n);
  }

  /** The first rotation of the double rotation of INSERT_COLOR, with its changes of bits. */
  function RaiseMem(m: Mem, par: Node, elm: Node, child: Node, d: Dir): Mem
    requires par in m && elm in m && child in m && (m[child].Link(d) != null ==> m[child].Link(d) in m)
  {
    var m1 := Rotated(m, elm, child, d);
    var m2 := if m1[child].Red(d.Other()) then m1[par := m1[par].Flip(d)] else m1;
    if m2[child].Red(d) then m2[elm := m2[elm].FlipBoth()] else m2[elm := m2[elm].Flip(d)]
  }

  method RaiseInner(par: Node, elm: Node, child: Node, d: Dir, ghost s: set<Node>)
    requires par in s && elm in s && child in s && (child.Link(d) != null ==> child.Link(d) in s)
    modifies s
    ensures Snap(s) == RaiseMem(old(Snap(s)), par, elm, child, d)
  {
    Rotate(elm, child, d, s);
    if child.Red(d.Other()) {
      par.Flip(d, s);
    }
    if child.Red(d) {
      elm.FlipBoth(s);
    } else {
      elm.Flip(d, s);
    }
  }

  /** The root `t` of a tree turned below its child `u` on side `d`, with new bits for both. */
  function RaisedTree(t: Tree<Node>, d: Dir, a: bool, b: bool, p: bool, q: bool): Tree<Node>
    requires t.Bin? && t.Child(d).Bin?
  {
    var u := t.Child(d);
    Mk(u.n, d, u.Child(d), Mk(t.n, d, u.Child(d.Other()), t.Child(d.Other()), a, b), p, q)
  }

  lemma RaisedApart(c: Ctx<Node>, t: Tree<Node>, d: Dir, a: bool, b: bool, p: bool, q: bool)
    requires t.Bin? && t.Child(d).Bin? && Apart(c, t)
    ensures Apart(c, RaisedTree(t, d, a, b, p, q)) && Nodes(RaisedTree(t, d, a, b, p, q)) == Nodes(t)
  {
    var u, w := t.Child(d), t.Child(d.Other());
    Halves(t, d);
    Halves(u, d);
    MkNodes(t.n, d, u.Child(d.Other()), w, a, b);
    MkNodes(u.n, d, u.Child(d), Mk(t.n, d, u.Child(d.Other()), w, a, b), p, q);
  }

  lemma RecolourMk(m: Mem, m': Mem, n: Node, d: Dir, near: Tree<Node>, far: Tree<Node>,
                   a: bool, b: bool, a': bool, b': bool, r: Node?)
    requires Shape(m, Mk(n, d, near, far, a, b), r)
    requires n in m && n in m' && m'[n] == m[n].SetReds(d, a', b')
    requires forall k <- Nodes(near) + Nodes(far) :: k in m ==> k in m' && m'[k] == m[k]
    ensures Shape(m', Mk(n, d, near, far, a', b'), r)
  {
    ShapeMk(m, n, d, near, far, a, b, r);
    ShapeMk(m', n, d, near, far, a', b', r);
    hide Shape, Nodes;
    ShapeFrame(m, m', near, n);
    ShapeFrame(m, m', far, n);
  }

  /** Recolouring the two upper nodes of a raised tree. */
  lemma RecolourRaised(m: Mem, m': Mem, n: Node, u: Node, d: Dir, x: Tree<Node>, y: Tree<Node>, w: Tree<Node>, r: Node?,
                       a: bool, b: bool, p: bool, q: bool, a': bool, b': bool, p': bool, q': bool)
    requires Shape(m, Mk(u, d, x, Mk(n, d, y, w, a, b), p, q), r)
    requires n in m && n in m' && m'[n] == m[n].SetReds(d, a', b')
    requires u in m && u in m' && m'[u] == m[u].SetReds(d, p', q')
    requires forall k <- Nodes(x) + Nodes(y) + Nodes(w) :: k in m ==> k in m' && m'[k] == m[k]
    ensures Shape(m', Mk(u, d, x, Mk(n, d, y, w, a', b'), p', q'), r)
  {
    var low, low' := Mk(n, d, y, w, a, b), Mk(n, d, y, w, a', b');
    ShapeMk(m, u, d, x, low, p, q, r);
    ShapeMk(m', u, d, x, low', p', q', r);
    hide Shape, Nodes;
    ShapeFrame(m, m', x, u);
    RecolourMk(m, m', n, d, y, w, a, b, a', b', u);
  }

  /** The tree `t` without its `d` child, as a context on its own. */
  function Around(t: Tree<Node>, d: Dir): Ctx<Node>
    requires t.Bin?
  {
    Hole(t.n, d, t.Child(d.Other()), t.Red(d), t.Red(d.Other()), Top)
  }

  lemma AroundApart(m: Mem, t: Tree<Node>, d: Dir, r: Node?)
    requires t.Bin? && Distinct(t) && Shape(m, t, r)
    ensures Apart(Around(t, d), t.Child(d)) && Side(m, Around(t, d)) && Shape(m, t.Child(d), t.n)
  {
    Halves(t, d);
    assert CtxNodes(Around(t, d)) == {t.n} + Nodes(t.Child(d.Other())) + {};
  }

  lemma RaisedTreeShape(m: Mem, m1: Mem, m': Mem, t: Tree<Node>, d: Dir, r: Node?, a: bool, b: bool, p: bool, q: bool)
    requires t.Bin? && t.Child(d).Bin? && Distinct(t)
    requires Shape(m, t, r) && t.n in m && t.Child(d).n in m
    requires Turned(m, m1, t.n, t.Child(d).n, d, t.n)
    requires t.n in m' && m'[t.n] == m1[t.n].SetReds(d, a, b)
    requires t.Child(d).n in m' && m'[t.Child(d).n] == m1[t.Child(d).n].SetReds(d, p, q)
    requires forall n <- Nodes(t) :: n in m1 && n != t.n && n != t.Child(d).n ==> n in m' && m'[n] == m1[n]
    ensures Shape(m', RaisedTree(t, d, a, b, p, q), t.n)
  {
    hide Shape, Distinct, Nodes, CtxNodes, CtxDistinct, Apart, Side;
    var u, w := t.Child(d), t.Child(d.Other());
    AroundApart(m, t, d, r);
    TurnedShape(m, m1, Around(t, d), u, t.n, t.n);
    Halves(t, d);
    Halves(u, d);
    RecolourRaised(m1, m', t.n, u.n, d, u.Child(d), u.Child(d.Other()), w, t.n,
                   t.Red(d), t.Red(d.Other()), u.Red(d), u.Red(d.Other()), a, b, p, q);
  }

  /** What the first rotation of a double rotation may rely on: `u`, the `d` child of `t`, comes up. */
  lemma RaiseReady(m: Mem, root: Node?, c: Ctx<Node>, t: Tree<Node>, d: Dir)
    requires Hangs(m, root, c, t) && c.Hole? && t.Bin? && t.Child(d).Bin?
    ensures var u := t.Child(d);
            && c.n in m && t.n in m && u.n in m && c.n != t.n && c.n != u.n && t.n != u.n
            && Shape(m, t, c.n) && Distinct(t) && m[u.n].up == t.n
            && m[t.n].Link(d) == u.n
            && m[t.n].Red(d) == t.Red(d) && m[t.n].Red(d.Other()) == t.Red(d.Other())
            && m[u.n].Red(d) == u.Red(d) && m[u.n].Red(d.Other()) == u.Red(d.Other())
            && (m[u.n].Link(d.Other()) != null ==>
                  var x := m[u.n].Link(d.Other()); x in m && x in Nodes(t) && x != t.n && x != u.n)
            && t.n in Nodes(t) && u.n in Nodes(t)
  {
    var u := t.Child(d);
    Inner(m, t, c.n, d);
    Halves(t, d);
    Inner(m, u, t.n, d);
  }

  /** What RaiseInner does to the nodes, when `elm` is long on side `d` and `child` is its other child. */
  lemma RaiseCells(m: Mem, par: Node, elm: Node, child: Node, d: Dir)
    requires par in m && elm in m && child in m && par != elm && par != child && elm != child
    requires var x := m[child].Link(d); x != null ==> x in m && x != par && x != elm && x != child
    requires m[elm].Red(d) && !m[elm].Red(d.Other())
    ensures var m1, m' := Rotated(m, elm, child, d), RaiseMem(m, par, elm, child, d);
            && elm in m1 && Turned(m, m1, elm, child, d.Other(), m[child].up)
            && m'.Keys == m.Keys
            && m'[elm] == m1[elm].SetReds(d, false, m[child].Red(d))
            && m'[par] == (if m[child].Red(d.Other()) then m[par].Flip(d) else m[par])
            && m1[child].Red(d) == m[child].Red(d) && m1[child].Red(d.Other()) == m[child].Red(d.Other())
            && forall n <- m :: n != elm && n != par ==> m'[n] == m1[n]
  {
    RotatedTurned(m, elm, child, d.Other(), m[child].up);
  }

  /** Another tree takes the place of the loose tree `t`, and the bits of the parent may change. */
  lemma LooseReplace(m: Mem, m': Mem, root: Node?, c: Ctx<Node>, t: Tree<Node>, r: Node?,
                     a: bool, b: bool, t': Tree<Node>, r': Node?)
    requires Loose(m, root, c, t, r) && Apart(c, t') && Shape(m', t', r')
    requires forall n <- CtxNodes(c) :: n in m && n != c.n ==> n in m' && m'[n] == m[n]
    requires c.n in m' && m'[c.n] == m[c.n].SetReds(c.dir, a, b)
    ensures Loose(m', root, c.(redHole := a, redSib := b), t', r')
  {
    CtxFrame(m, m', root, c.up, c.n);
    ShapeFrame(m, m', c.sib, c.n);
  }

  lemma HangsLoose(m: Mem, root: Node?, c: Ctx<Node>, t: Tree<Node>)
    requires Hangs(m, root, c, t) && c.Hole?
    ensures Loose(m, root, c, t, c.n)
  {
  }

  /** The tree that RaiseInner builds: the raised child keeps its bits for the moment. */
  function InsertRaised(t: Tree<Node>, d: Dir): Tree<Node>
    requires t.Bin? && t.Child(d.Other()).Bin?
  {
    var u := t.Child(d.Other());
    RaisedTree(t, d.Other(), u.Red(d), false, u.Red(d.Other()), u.Red(d))
  }

  /** RaiseInner leaves its result loose below the parent, one of whose bits it has changed. */
  lemma RaiseLoose(m: Mem, root: Node?, c: Ctx<Node>, t: Tree<Node>)
    requires Hangs(m, root, c, t) && c.Hole? && !c.redHole && t.Bin? && t.Child(c.dir.Other()).Bin?
    requires t.Red(c.dir) && !t.Red(c.dir.Other())
    ensures var u := t.Child(c.dir.Other());
            && c.n in m && t.n in m && u.n in m && (m[u.n].Link(c.dir) != null ==> m[u.n].Link(c.dir) in m)
            && Loose(RaiseMem(m, c.n, t.n, u.n, c.dir), root, c.(redHole := u.Red(c.dir.Other())), InsertRaised(t, c.dir), t.n)
  {
    HangsLoose(m, root, c, t);
    assert Apart(c, t) && Side(m, c);
    hide Rotated, RaiseMem, RaisedTree, Hangs, Distinct, Shape, CtxShape, CtxDistinct, Loose;
    var d, u := c.dir, t.Child(c.dir.Other());
    RaiseReady(m, root, c, t, d.Other());
    RaiseCells(m, c.n, t.n, u.n, d);
    var m1, m' := Rotated(m, t.n, u.n, d), RaiseMem(m, c.n, t.n, u.n, d);
    RaisedApart(c, t, d.Other(), u.Red(d), false, u.Red(d.Other()), u.Red(d));
    RaisedTreeShape(m, m1, m', t, d.Other(), c.n, u.Red(d), false, u.Red(d.Other()), u.Red(d));
    LooseReplace(m, m', root, c, t, c.n, u.Red(d.Other()), c.redSib, InsertRaised(t, d), t.n);
  }

  lemma HangsInner(m: Mem, root: Node?, c: Ctx<Node>, t: Tree<Node>, d: Dir)
    requires Hangs(m, root, c, t) && t.Bin?
    ensures t.n in m && m[t.n].Red(d) == t.Red(d) && m[t.n].Red(d.Other()) == t.Red(d.Other())
  {
    Inner(m, t, Parent(c), d);
  }

  /** The double or single rotation that ends INSERT_COLOR. */
  method InsertRotate(h: Head, par: Node, elm: Node, child: Node?, d: Dir,
                      ghost c: Ctx<Node>, ghost t: Tree<Node>, ghost s: set<Node>)
    requires Hangs(Snap(s), h.root, c, t) && c.Hole? && c.n == par && c.dir == d && t.Bin? && t.n == elm
    requires !c.redHole && !c.redSib && t.redL != t.redR
    requires t.Red(d) ==> t.Child(d.Other()).Bin? && child == t.Child(d.Other()).n
    modifies h`root, s
    ensures Holds(Snap(s), h.root, Plug(c.up, RankTree.InsertRotate(par, d, t, c.sib)))
  {
    hide Hangs, Holds, Loose, LiftMem, RaiseMem, Plug;
    var top := elm;
    ghost var k, u, q := c, t, par;
    HangsInner(Snap(s), h.root, c, t, d);
    if elm.Red(d) {
      top := child;
      RaiseLoose(Snap(s), h.root, c, t);
      RaiseInner(par, elm, child, d, s);
      k, u, q := c.(redHole := t.Child(d.Other()).Red(d.Other())), InsertRaised(t, d), elm;
    } else {
      HangsLoose(Snap(s), h.root, c, t);
    }
    LiftHangs(Snap(s), h.root, k, u, q);
    Lift(h, par, top, d, s);
    ghost var v := Lifted(par, d, u, c.sib, k.redHole, k.redSib);
    RecolourRoot(Snap(s), h.root, c.up, v, false, false);
    top.SetReds(Left, false, false, s);
    HangsPlug(Snap(s), h.root, c.up, v.(redL := false, redR := false));
    assert v.(redL := false, redR := false) == RankTree.InsertRotate(par, d, t, c.sib);
  }

  /** What a climb reads at the parent of the hole: its links, its bits, and on which side the hole is. */
  lemma HangsParent(m: Mem, root: Node?, c: Ctx<Node>, t: Tree<Node>)
    requires Hangs(m, root, c, t) && c.Hole?
    ensures c.n in m && m[c.n].up == Parent(c.up)
    ensures m[c.n].Link(c.dir) == Root(t) && m[c.n].Link(c.dir.Other()) == Root(c.sib)
    ensures m[c.n].Red(c.dir) == c.redHole && m[c.n].Red(c.dir.Other()) == c.redSib
    ensures Root(t) != null || Root(c.sib) != null ==> Root(t) != Root(c.sib)
  {
  }

  /** Both edges of the parent short, the climb goes on from there. */
  lemma AscendHangs(m: Mem, root: Node?, c: Ctx<Node>, t: Tree<Node>, a: bool, b: bool)
    requires Hangs(m, root, c, t) && c.Hole?
    ensures c.n in m
    ensures Hangs(m[c.n := m[c.n].SetReds(c.dir, a, b)], root, c.up, Mk(c.n, c.dir, t, c.sib, a, b))
  {
    RecolourParent(m, root, c, t, a, b);
    HangsUp(m[c.n := m[c.n].SetReds(c.dir, a, b)], root, c.(redHole := a, redSib := b), t);
  }

  /** RB_INSERT_COLOR: the subtree at `elm` has grown by one rank. `turns` counts the turns of the loop. */
  method InsertColor(h: Head, parent: Node, elm: Node, ghost c0: Ctx<Node>, ghost t0: Tree<Node>, ghost s: set<Node>)
    returns (ghost turns: nat)
    requires Hangs(Snap(s), h.root, c0, t0) && c0.Hole? && c0.n == parent
    requires t0 == Bin(elm, Nil, Nil, false, false) && Growing(c0, t0)
    modifies h`root, s
    ensures Holds(Snap(s), h.root, RankTree.InsertColor(c0, t0))
    ensures turns <= Depth(c0)
  {
    hide Hangs, Holds, WAVL, Fits, Rank;
    turns := 0;
    var par: Node?, e, child: Node? := parent, elm, null;
    ghost var c, t := c0, t0;
    while par != null
      invariant t.Bin? && e == t.n && par == Parent(c)
      invariant Hangs(Snap(s), h.root, c, t)
      invariant Growing(c, t)
      invariant t.redL != t.redR ==> child == (if t.redL then Root(t.r) else Root(t.l))
      invariant RankTree.InsertColor(c, t) == RankTree.InsertColor(c0, t0)
      invariant turns + Depth(c) == Depth(c0)
      decreases c
    {
      turns := turns + 1;
      HangsParent(Snap(s), h.root, c, t);
      var gpar := par.up;
      var d := if par.right == e then Right else Left;
      if par.Red(d) {
        AscendHangs(Snap(s), h.root, c, t, false, c.redSib);
        par.Flip(d, s);
        HangsPlug(Snap(s), h.root, c.up, Mk(par, d, t, c.sib, false, c.redSib));
        return;
      }
      var sibRed := par.Red(d.Other());
      AscendHangs(Snap(s), h.root, c, t, false, !c.redSib);
      RecolourParent(Snap(s), h.root, c, t, false, !c.redSib);
      par.Flip(d.Other(), s);
      if !sibRed {
        GrowUp(c, t);
        child, e, par := e, par, gpar;
        c, t := c.up, Mk(c.n, c.dir, t, c.sib, false, true);
        continue;
      }
      RotationChild(c, t);
      InsertRotate(h, par, e, child, d, c.(redSib := false), t, s);
      return;
    }
    HangsPlug(Snap(s), h.root, c, t);
  }

  // ---------------------------------------------------------------- removal

  /** The same heap, looked at from the sibling instead of from the hole. */
  function Across(c: Ctx<Node>, t: Tree<Node>): Ctx<Node>
    requires c.Hole?
  {
    Hole(c.n, c.dir.Other(), t, c.redSib, c.redHole, c.up)
  }

  lemma HangsAcross(m: Mem, root: Node?, c: Ctx<Node>, t: Tree<Node>)
    requires Hangs(m, root, c, t) && c.Hole?
    ensures Hangs(m, root, Across(c, t), c.sib)
  {
  }

  /** The first rotation of the double rotation of REMOVE_COLOR, with its changes of bits:
      `inner`, the child of `sib` on the side of the hole, comes up. */
  function RemoveRaiseMem(m: Mem, par: Node, sib: Node, inner: Node, d: Dir): Mem
    requires par in m && sib in m && inner in m
    requires m[inner].Link(d.Other()) != null ==> m[inner].Link(d.Other()) in m
  {
    var m1 := Rotated(m, sib, inner, d.Other());
    var m2 := m1[par := if m1[inner].Red(d) then m1[par].FlipBoth() else m1[par].Flip(d)];
    var m3 := m2[sib := if m2[inner].Red(d.Other()) then m2[sib].FlipBoth() else m2[sib].Flip(d.Other())];
    m3[inner := m3[inner].SetReds(d, true, true)]
  }

  method RemoveRaise(par: Node, sib: Node, inner: Node, d: Dir, ghost s: set<Node>)
    requires par in s && sib in s && inner in s && (inner.Link(d.Other()) != null ==> inner.Link(d.Other()) in s)
    modifies s
    ensures Snap(s) == RemoveRaiseMem(old(Snap(s)), par, sib, inner, d)
  {
    Rotate(sib, inner, d.Other(), s);
    if inner.Red(d) {
      par.FlipBoth(s);
    } else {
      par.Flip(d, s);
    }
    if inner.Red(d.Other()) {
      sib.FlipBoth(s);
    } else {
      sib.Flip(d.Other(), s);
    }
    inner.SetReds(d, true, true, s);
  }

  lemma RemoveRaiseCells(m: Mem, par: Node, sib: Node, inner: Node, d: Dir)
    requires par in m && sib in m && inner in m && par != sib && par != inner && sib != inner
    requires var x := m[inner].Link(d.Other()); x != null ==> x in m && x != par && x != sib && x != inner
    requires !m[sib].Red(d) && m[sib].Red(d.Other()) && m[par].Red(d) && !m[par].Red(d.Other())
    ensures var m1, m' := Rotated(m, sib, inner, d.Other()), RemoveRaiseMem(m, par, sib, inner, d);
            && sib in m1 && Turned(m, m1, sib, inner, d, m[inner].up)
            && m'.Keys == m.Keys
            && m'[sib] == m1[sib].SetReds(d, m[inner].Red(d.Other()), false)
            && m'[inner] == m1[inner].SetReds(d, true, true)
            && m'[par] == m[par].SetReds(d.Other(), m[inner].Red(d), false)
            && forall n <- m :: n != sib && n != par && n != inner ==> m'[n] == m1[n]
  {
    RotatedTurned(m, sib, inner, d, m[inner].up);
  }

  function RemoveRaised(s: Tree<Node>, d: Dir): Tree<Node>
    requires s.Bin? && s.Child(d).Bin?
  {
    RaisedTree(s, d, s.Child(d).Red(d.Other()), false, true, true)
  }

  /** Here `c` and `t` are as seen from the sibling, which is long away from the hole. */
  lemma RemoveRaiseLoose(m: Mem, root: Node?, c: Ctx<Node>, t: Tree<Node>)
    requires Hangs(m, root, c, t) && c.Hole? && !c.redHole && c.redSib && t.Bin? && t.Child(c.dir.Other()).Bin?
    requires !t.Red(c.dir.Other()) && t.Red(c.dir)
    ensures var d, u := c.dir.Other(), t.Child(c.dir.Other());
            && c.n in m && t.n in m && u.n in m && (m[u.n].Link(d.Other()) != null ==> m[u.n].Link(d.Other()) in m)
            && m[t.n].Link(d) == u.n
            && Loose(RemoveRaiseMem(m, c.n, t.n, u.n, d), root, c.(redHole := u.Red(d), redSib := false), RemoveRaised(t, d), t.n)
  {
    HangsLoose(m, root, c, t);
    assert Apart(c, t) && Side(m, c);
    hide Rotated, RemoveRaiseMem, RaisedTree, Hangs, Distinct, Shape, CtxShape, CtxDistinct, Loose;
    var d, u := c.dir.Other(), t.Child(c.dir.Other());
    RaiseReady(m, root, c, t, d);
    RemoveRaiseCells(m, c.n, t.n, u.n, d);
    var m1, m' := Rotated(m, t.n, u.n, d.Other()), RemoveRaiseMem(m, c.n, t.n, u.n, d);
    RaisedApart(c, t, d, u.Red(d.Other()), false, true, true);
    RaisedTreeShape(m, m1, m', t, d, c.n, u.Red(d.Other()), false, true, true);
    LooseReplace(m, m', root, c, t, c.n, u.Red(d), false, RemoveRaised(t, d), t.n);
  }

  /** Recolouring the parent of the hole and the root of the tree in it. */
  lemma RecolourTwo(m: Mem, root: Node?, c: Ctx<Node>, t: Tree<Node>, a: bool, b: bool, p: bool, q: bool)
    requires Hangs(m, root, c, t) && c.Hole? && t.Bin?
    ensures c.n in m && t.n in m && c.n != t.n
    ensures Hangs(m[c.n := m[c.n].SetReds(c.dir, a, b)][t.n := m[t.n].SetReds(c.dir, p, q)], root,
                  c.(redHole := a, redSib := b), Mk(t.n, c.dir, t.Child(c.dir), t.Child(c.dir.Other()), p, q))
  {
    RecolourParent(m, root, c, t, a, b);
    var m1 := m[c.n := m[c.n].SetReds(c.dir, a, b)];
    var l, r := if c.dir == Left then p else q, if c.dir == Left then q else p;
    RecolourRoot(m1, root, c.(redHole := a, redSib := b), t, l, r);
    assert t.n in Nodes(t);
  }

  /** The changes of bits before the single rotation of REMOVE_COLOR. */
  method DemoteBits(par: Node, sib: Node, d: Dir, ghost s: set<Node>)
    requires par in s && sib in s && par != sib
    requires par.Red(d) && !par.Red(d.Other()) && !sib.Red(d.Other())
    modifies s
    ensures var m := old(Snap(s));
            Snap(s) == m[par := m[par].SetReds(d.Other(), false, !m[sib].Red(d))]
                        [sib := m[sib].SetReds(d.Other(), true, m[sib].Red(d))]
  {
    if sib.Red(d) {
      par.Flip(d, s);
    }
    sib.Flip(d.Other(), s);
  }

  /** The single or double rotation that ends REMOVE_COLOR. */
  method RemoveRotate(h: Head, par: Node, sib: Node, d: Dir, ghost c: Ctx<Node>, ghost t: Tree<Node>, ghost s: set<Node>)
    requires Hangs(Snap(s), h.root, c, t) && c.Hole? && c.n == par && c.dir == d && c.sib.Bin? && c.sib.n == sib
    requires c.redHole && !c.redSib && !(c.sib.redL && c.sib.redR)
    requires c.sib.Red(d.Other()) ==> c.sib.Child(d).Bin?
    modifies h`root, s
    ensures Holds(Snap(s), h.root, Plug(c.up, RankTree.RemoveRotate(par, d, t, c.sib)))
  {
    hide Hangs, Holds, Loose, LiftMem, RemoveRaiseMem, Plug;
    var top := sib;
    ghost var k, u, q := Across(c, t), c.sib, par;
    HangsAcross(Snap(s), h.root, c, t);
    HangsInner(Snap(s), h.root, k, u, d);
    if sib.Red(d.Other()) {
      RemoveRaiseLoose(Snap(s), h.root, k, u);
      top := sib.Link(d);
      RemoveRaise(par, sib, top, d, s);
      k, u, q := k.(redHole := c.sib.Child(d).Red(d), redSib := false), RemoveRaised(c.sib, d), sib;
    } else {
      ghost var z := c.sib.Red(d);
      RecolourTwo(Snap(s), h.root, k, u, false, !z, true, z);
      HangsParent(Snap(s), h.root, c, t);
      DemoteBits(par, sib, d, s);
      k, u := k.(redSib := !z), Mk(sib, d, u.Child(d), u.Child(d.Other()), z, true);
      HangsLoose(Snap(s), h.root, k, u);
    }
    LiftHangs(Snap(s), h.root, k, u, q);
    Lift(h, par, top, d.Other(), s);
    HangsPlug(Snap(s), h.root, c.up, Lifted(par, d.Other(), u, t, k.redHole, k.redSib));
    assert Lifted(par, d.Other(), u, t, k.redHole, k.redSib) == RankTree.RemoveRotate(par, d, t, c.sib);
  }

  lemma ShortenHangs(m: Mem, root: Node?, c: Ctx<Node>, t: Tree<Node>)
    requires Hangs(m, root, c, t) && c.Hole? && c.sib.Bin?
    ensures c.sib.n in m
    ensures Hangs(m[c.sib.n := m[c.sib.n].SetReds(c.dir, false, false)], root,
                  c.up, Mk(c.n, c.dir, t, Shorten(c.sib), c.redHole, c.redSib))
  {
    HangsAcross(m, root, c, t);
    RecolourRoot(m, root, Across(c, t), c.sib, false, false);
    var m' := m[c.sib.n := m[c.sib.n].SetReds(c.dir, false, false)];
    HangsAcross(m', root, Across(c, t), Shorten(c.sib));
    HangsUp(m', root, c.(sib := Shorten(c.sib)), t);
  }

  /** One turn of the loop of REMOVE_COLOR at a parent with a long edge to the hole and a short edge
      to its sibling: shorten the sibling's edges and go on, or rotate and stop. */
  method RemoveAtLong(h: Head, par: Node, d: Dir, ghost c: Ctx<Node>, ghost t: Tree<Node>, ghost s: set<Node>)
    returns (done: bool)
    requires Hangs(Snap(s), h.root, c, t) && c.Hole? && c.n == par && c.dir == d && Shrunk(c, t)
    requires c.redHole && !c.redSib
    modifies h`root, s
    ensures c.sib.Bin? && done == !(c.sib.redL && c.sib.redR)
    ensures done ==> Holds(Snap(s), h.root, RankTree.RemoveClimb(c, t))
    ensures !done ==> Hangs(Snap(s), h.root, c.up, Mk(par, d, t, Shorten(c.sib), true, false)) && h.root == old(h.root)
    ensures !done ==> Shrunk(c.up, Mk(par, d, t, Shorten(c.sib), true, false))
  {
    hide Hangs, Holds, WAVL, Fits, Rank;
    HangsParent(Snap(s), h.root, c, t);
    SiblingExists(c, t);
    var sib := par.Link(d.Other());
    HangsAcross(Snap(s), h.root, c, t);
    HangsInner(Snap(s), h.root, Across(c, t), c.sib, Left);
    done := !(sib.redL && sib.redR);
    if done {
      assert c.sib.Red(d.Other()) ==> c.sib.Child(d).Bin?;
      RemoveRotate(h, par, sib, d, c, t, s);
    } else {
      ShortenHangs(Snap(s), h.root, c, t);
      sib.SetReds(d, false, false, s);
      ShrinkSibling(c, t);
    }
  }

  /** The loop of RB_REMOVE_COLOR; `turns` counts its turns. */
  method RemoveClimb(h: Head, parent: Node?, elm: Node?, ghost c0: Ctx<Node>, ghost t0: Tree<Node>, ghost s: set<Node>)
    returns (ghost turns: nat)
    requires Hangs(Snap(s), h.root, c0, t0) && parent == Parent(c0) && elm == Root(t0) && Shrunk(c0, t0)
    modifies h`root, s
    ensures Holds(Snap(s), h.root, RankTree.RemoveClimb(c0, t0))
    ensures turns <= Depth(c0)
  {
    hide Hangs, Holds, WAVL, Fits, Rank;
    turns := 0;
    var par, e := parent, elm;
    ghost var c, t := c0, t0;
    while par != null
      invariant e == Root(t) && par == Parent(c)
      invariant Hangs(Snap(s), h.root, c, t)
      invariant Shrunk(c, t)
      invariant RankTree.RemoveClimb(c, t) == RankTree.RemoveClimb(c0, t0)
      invariant turns + Depth(c) == Depth(c0)
      decreases c
    {
      turns := turns + 1;
      HangsParent(Snap(s), h.root, c, t);
      var gpar := par.up;
      var d := if par.right == e then Right else Left;
      if !par.Red(d) {
        AscendHangs(Snap(s), h.root, c, t, true, c.redSib);
        par.Flip(d, s);
        HangsPlug(Snap(s), h.root, c.up, Mk(par, d, t, c.sib, true, c.redSib));
        return;
      }
      if par.Red(d.Other()) {
        AscendHangs(Snap(s), h.root, c, t, true, false);
        par.Flip(d.Other(), s);
        ShrinkUp(c, t);
        e, par := par, gpar;
        c, t := c.up, Mk(c.n, c.dir, t, c.sib, true, false);
        continue;
      }
      var done := RemoveAtLong(h, par, d, c, t, s);
      if done {
        return;
      }
      e, par := par, gpar;
      c, t := c.up, Mk(c.n, c.dir, t, Shorten(c.sib), true, false);
    }
    HangsPlug(Snap(s), h.root, c, t);
  }

  /** RB_REMOVE_COLOR: the subtree at `elm`, possibly null, has shrunk by one rank. */
  method RemoveColor(h: Head, parent: Node, elm: Node?, ghost c: Ctx<Node>, ghost t: Tree<Node>, ghost s: set<Node>)
    returns (ghost turns: nat)
    requires Hangs(Snap(s), h.root, c, t) && c.Hole? && c.n == parent && elm == Root(t)
    requires WAVL(t) && Fits(c, Rank(t) + 1)
    modifies h`root, s
    ensures Holds(Snap(s), h.root, RankTree.RemoveColor(c, t))
    ensures turns <= Depth(c)
  {
    hide Hangs, Holds, WAVL, Fits, Rank;
    HangsParent(Snap(s), h.root, c, t);
    if parent.right == elm && parent.left == elm {
      AscendHangs(Snap(s), h.root, c, t, false, false);
      ShrinkLeaf(c, t);
      parent.SetReds(Left, false, false, s);
      turns := RemoveClimb(h, parent.up, parent, c.up, Mk(c.n, c.dir, t, c.sib, false, false), s);
    } else {
      assert Shrunk(c, t);
      turns := RemoveClimb(h, parent, elm, c, t, s);
    }
  }
}
