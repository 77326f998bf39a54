/**
 Splay trees in memory (the SPLAY family of tree.h): `left` and `right` are the link fields of all
 nodes, by address. While a tree is being splayed it is in three parts: the current tree, and two spines
 of nodes that have been linked off it, each of which ends in a link that is still open.
 */
module SplayShape {

  type Addr = nat

  type Links = map<Addr, Addr>

  const NIL: Addr := 0

  /** The local variable __node of SPLAY, whose links hold the tops of the two spines. */
  const DUMMY: Addr := 1

  datatype Tree = Leaf | Br(l: Tree, n: Addr, r: Tree)

  function Nodes(t: Tree): set<Addr>
  {
    match t
    case Leaf => {}
    case Br(l, n, r) => Nodes(l) + {n} + Nodes(r)
  }

  function Inorder(t: Tree): seq<Addr>
  {
    match t
    case Leaf => []
    case Br(l, n, r) => Inorder(l) + [n] + Inorder(r)
  }

  function Size(t: Tree): nat
  {
    match t
    case Leaf => 0
    case Br(l, n, r) => Size(l) + 1 + Size(r)
  }

  /** No node occurs twice. */
  predicate Simple(t: Tree)
  {
    match t
    case Leaf => true
    case Br(l, n, r) => Simple(l) && Simple(r) && n > DUMMY && n !in Nodes(l) && n !in Nodes(r) && Nodes(l) !! Nodes(r)
  }

  /** The links below `p` are those of `t`. */
  predicate Shape(left: Links, right: Links, t: Tree, p: Addr)
  {
    match t
    case Leaf => p == NIL
    case Br(l, n, r) => p == n && n in left && n in right && Shape(left, right, l, left[n]) && Shape(left, right, r, right[n])
  }

  /** The nodes linked off to one side, the last one outermost, each with its subtree on that side. */
  datatype Spine = Top | Push(up: Spine, n: Addr, sub: Tree)

  function Last(s: Spine): Addr
  {
    if s.Top? then DUMMY else s.n
  }

  function SNodes(s: Spine): set<Addr>
  {
    match s
    case Top => {}
    case Push(up, n, sub) => SNodes(up) + {n} + Nodes(sub)
  }

  predicate SSimple(s: Spine)
  {
    match s
    case Top => true
    case Push(up, n, sub) =>
      SSimple(up) && Simple(sub) && n > DUMMY && n !in SNodes(up) && n !in Nodes(sub) && SNodes(up) !! Nodes(sub)
  }

  /** A spine whose nodes hang on each other by `link`, and have their subtrees by `other`; the link of the last is open. */
  predicate SShape(left: Links, right: Links, link: Links, other: Links, s: Spine)
  {
    match s
    case Top => true
    case Push(up, n, sub) =>
      && n in link && n in other && Shape(left, right, sub, other[n])
      && Last(up) in link && link[Last(up)] == n && SShape(left, right, link, other, up)
  }

  /** The left spine holds what is smaller, and goes down by right links; the right spine the other way round. */
  function PlugLeft(s: Spine, x: Tree): Tree
  {
    match s
    case Top => x
    case Push(up, n, sub) => PlugLeft(up, Br(sub, n, x))
  }

  function PlugRight(s: Spine, x: Tree): Tree
  {
    match s
    case Top => x
    case Push(up, n, sub) => PlugRight(up, Br(x, n, sub))
  }

  function LeftInorder(s: Spine): seq<Addr>
  {
    match s
    case Top => []
    case Push(up, n, sub) => LeftInorder(up) + Inorder(sub) + [n]
  }

  function RightInorder(s: Spine): seq<Addr>
  {
    match s
    case Top => []
    case Push(up, n, sub) => [n] + Inorder(sub) + RightInorder(up)
  }

  lemma {:induction false} PlugLeftInorder(s: Spine, x: Tree)
    ensures Inorder(PlugLeft(s, x)) == LeftInorder(s) + Inorder(x)
    ensures Nodes(PlugLeft(s, x)) == SNodes(s) + Nodes(x)
    ensures SSimple(s) && Simple(x) && SNodes(s) !! Nodes(x) ==> Simple(PlugLeft(s, x))
  {
    if s.Push? {
      PlugLeftInorder(s.up, Br(s.sub, s.n, x));
    }
  }

  lemma {:induction false} PlugRightInorder(s: Spine, x: Tree)
    ensures Inorder(PlugRight(s, x)) == Inorder(x) + RightInorder(s)
    ensures Nodes(PlugRight(s, x)) == SNodes(s) + Nodes(x)
    ensures SSimple(s) && Simple(x) && SNodes(s) !! Nodes(x) ==> Simple(PlugRight(s, x))
  {
    if s.Push? {
      PlugRightInorder(s.up, Br(x, s.n, s.sub));
    }
  }

  // ---------------------------------------------------------------- what a write leaves alone

  lemma {:induction false} ShapeFrame(left: Links, right: Links, left': Links, right': Links, t: Tree, p: Addr)
    requires Shape(left, right, t, p)
    requires forall n <- Nodes(t) :: (n in left ==> n in left' && left'[n] == left[n]) && (n in right ==> n in right' && right'[n] == right[n])
    ensures Shape(left', right', t, p)
  {
    if t.Br? {
      ShapeFrame(left, right, left', right', t.l, left[t.n]);
      ShapeFrame(left, right, left', right', t.r, right[t.n]);
    }
  }

  /** Only the open link of a spine, and links that are not its own, have changed. */
  lemma {:induction false} SShapeFrame(left: Links, right: Links, link: Links, other: Links,
                                       left': Links, right': Links, link': Links, other': Links, s: Spine)
    requires SShape(left, right, link, other, s) && SSimple(s)
    requires forall n <- SNodes(s) :: (n in left ==> n in left') && (n in right ==> n in right') && (n in link ==> n in link') && (n in other ==> n in other')
    requires forall n <- SNodes(s) :: n != Last(s) ==>
      (n in left ==> left'[n] == left[n]) && (n in right ==> right'[n] == right[n]) && (n in link ==> link'[n] == link[n])
    requires forall n <- SNodes(s) :: n in other ==> other'[n] == other[n]
    requires s.Push? && DUMMY in link ==> DUMMY in link' && link'[DUMMY] == link[DUMMY]
    ensures SShape(left', right', link', other', s)
  {
    if s.Push? {
      ShapeFrame(left, right, left', right', s.sub, other[s.n]);
      SShapeFrame(left, right, link, other, left', right', link', other', s.up);
    }
  }

  // ---------------------------------------------------------------- closing the spines

  lemma {:induction false} CloseLeft(left: Links, right: Links, s: Spine, x: Tree)
    requires SShape(left, right, right, left, s) && Last(s) in right && Shape(left, right, x, right[Last(s)])
    ensures DUMMY in right && Shape(left, right, PlugLeft(s, x), right[DUMMY])
  {
    if s.Push? {
      CloseLeft(left, right, s.up, Br(s.sub, s.n, x));
    }
  }

  lemma {:induction false} CloseRight(left: Links, right: Links, s: Spine, x: Tree)
    requires SShape(left, right, left, right, s) && Last(s) in left && Shape(left, right, x, left[Last(s)])
    ensures DUMMY in left && Shape(left, right, PlugRight(s, x), left[DUMMY])
  {
    if s.Push? {
      CloseRight(left, right, s.up, Br(x, s.n, s.sub));
    }
  }

  // ---------------------------------------------------------------- in the middle of a splay

  /** The three parts have no node in common. */
  ghost predicate Apart(a: Spine, t: Tree, b: Spine)
  {
    Simple(t) && SSimple(a) && SSimple(b) && SNodes(a) !! Nodes(t) && SNodes(b) !! Nodes(t) && SNodes(a) !! SNodes(b)
  }

  /** The three parts, and the last nodes of the two spines. */
  ghost predicate Parts(left: Links, right: Links, root: Addr, lp: Addr, rp: Addr, a: Spine, t: Tree, b: Spine)
  {
    && Apart(a, t, b) && Shape(left, right, t, root)
    && SShape(left, right, right, left, a) && lp == Last(a) && SShape(left, right, left, right, b) && rp == Last(b)
    && DUMMY in left && DUMMY in right
  }

  lemma {:induction false} Above(s: Spine)
    requires SSimple(s)
    ensures forall n <- SNodes(s) :: n > DUMMY
    ensures Last(s) == DUMMY || Last(s) in SNodes(s)
  {
    if s.Push? {
      Above(s.up);
      AboveTree(s.sub);
    }
  }

  lemma {:induction false} AboveTree(t: Tree)
    requires Simple(t)
    ensures forall n <- Nodes(t) :: n > DUMMY
  {
    if t.Br? {
      AboveTree(t.l);
      AboveTree(t.r);
    }
  }

  /** The open ends are not in the other parts. */
  lemma Ends(a: Spine, t: Tree, b: Spine)
    requires Apart(a, t, b)
    ensures Last(a) !in Nodes(t) && Last(a) !in SNodes(b) && Last(b) !in Nodes(t) && Last(b) !in SNodes(a)
    ensures (Last(a) == DUMMY <==> a.Top?) && (Last(b) == DUMMY <==> b.Top?)
    ensures DUMMY !in Nodes(t) && DUMMY !in SNodes(a) && DUMMY !in SNodes(b)
  {
    Above(a);
    Above(b);
    AboveTree(t);
  }

  function AllInorder(a: Spine, t: Tree, b: Spine): seq<Addr>
  {
    LeftInorder(a) + Inorder(t) + RightInorder(b)
  }

  /** A write to the links of one node that is in no spine, or to the open links. */
  lemma SpinesFrame(left: Links, right: Links, left': Links, right': Links, a: Spine, b: Spine)
    requires SShape(left, right, right, left, a) && SSimple(a) && SShape(left, right, left, right, b) && SSimple(b)
    requires left.Keys <= left'.Keys && right.Keys <= right'.Keys
    requires forall n <- SNodes(a) :: (n in left ==> left'[n] == left[n]) && (n in right && n != Last(a) ==> right'[n] == right[n])
    requires forall n <- SNodes(b) :: (n in right ==> right'[n] == right[n]) && (n in left && n != Last(b) ==> left'[n] == left[n])
    requires a.Push? && DUMMY in right ==> right'[DUMMY] == right[DUMMY]
    requires b.Push? && DUMMY in left ==> left'[DUMMY] == left[DUMMY]
    ensures SShape(left', right', right', left', a) && SShape(left', right', left', right', b)
  {
    SShapeFrame(left, right, right, left, left', right', right', left', a);
    SShapeFrame(left, right, left, right, left', right', left', right', b);
  }

  /** SPLAY_ROTATE_RIGHT */
  function RotatedRight(t: Tree): Tree
    requires t.Br? && t.l.Br?
  {
    Br(t.l.l, t.l.n, Br(t.l.r, t.n, t.r))
  }

  /** SPLAY_ROTATE_LEFT */
  function RotatedLeft(t: Tree): Tree
    requires t.Br? && t.r.Br?
  {
    Br(Br(t.l, t.n, t.r.l), t.r.n, t.r.r)
  }

  /** What is below a child is apart from the rest. */
  lemma Grandchildren(t: Tree)
    requires Simple(t) && t.Br?
    ensures t.l.Br? ==>
      && Simple(t.l.l) && Simple(t.l.r) && t.l.n !in Nodes(t.l.l) && t.l.n !in Nodes(t.l.r) && Nodes(t.l.l) !! Nodes(t.l.r)
      && Nodes(t.l) == Nodes(t.l.l) + {t.l.n} + Nodes(t.l.r)
    ensures t.r.Br? ==>
      && Simple(t.r.l) && Simple(t.r.r) && t.r.n !in Nodes(t.r.l) && t.r.n !in Nodes(t.r.r) && Nodes(t.r.l) !! Nodes(t.r.r)
      && Nodes(t.r) == Nodes(t.r.l) + {t.r.n} + Nodes(t.r.r)
    ensures t.l.Br? ==> t.l.n > DUMMY
    ensures t.r.Br? ==> t.r.n > DUMMY
  {
    assert Simple(t.l) && Simple(t.r);
  }

  lemma SimpleBr(l: Tree, n: Addr, r: Tree)
    requires Simple(l) && Simple(r) && n > DUMMY && n !in Nodes(l) && n !in Nodes(r) && Nodes(l) !! Nodes(r)
    ensures Simple(Br(l, n, r)) && Nodes(Br(l, n, r)) == Nodes(l) + {n} + Nodes(r)
  {
  }

  lemma SimpleParts(t: Tree)
    requires Simple(t) && t.Br?
    ensures Simple(t.l) && Simple(t.r) && t.n > DUMMY && t.n !in Nodes(t.l) && t.n !in Nodes(t.r) && Nodes(t.l) !! Nodes(t.r)
    ensures Nodes(t) == Nodes(t.l) + {t.n} + Nodes(t.r)
  {
  }

  lemma RotateSimple(t: Tree)
    requires Simple(t) && t.Br?
    ensures t.l.Br? ==> Simple(RotatedRight(t)) && Nodes(RotatedRight(t)) == Nodes(t)
    ensures t.r.Br? ==> Simple(RotatedLeft(t)) && Nodes(RotatedLeft(t)) == Nodes(t)
  {
    Grandchildren(t);
    SimpleParts(t);
    hide Simple, Nodes;
    if t.l.Br? {
      SimpleBr(t.l.r, t.n, t.r);
      SimpleBr(t.l.l, t.l.n, Br(t.l.r, t.n, t.r));
    }
    if t.r.Br? {
      SimpleBr(t.l, t.n, t.r.l);
      SimpleBr(Br(t.l, t.n, t.r.l), t.r.n, t.r.r);
    }
  }

  lemma Regroup(a: seq<Addr>, b: seq<Addr>, c: seq<Addr>, d: seq<Addr>, e: seq<Addr>)
    ensures (a + b + c) + d + e == a + b + (c + d + e) == a + (b + c + d) + e
  {
  }

  lemma RotateInorder(t: Tree)
    requires t.Br?
    ensures t.l.Br? ==> Inorder(RotatedRight(t)) == Inorder(t) && Size(RotatedRight(t)) == Size(t)
    ensures t.r.Br? ==> Inorder(RotatedLeft(t)) == Inorder(t) && Size(RotatedLeft(t)) == Size(t)
  {
    if t.l.Br? {
      Regroup(Inorder(t.l.l), [t.l.n], Inorder(t.l.r), [t.n], Inorder(t.r));
    }
    if t.r.Br? {
      Regroup(Inorder(t.l), [t.n], Inorder(t.r.l), [t.r.n], Inorder(t.r.r));
    }
  }

  lemma RotateApart(a: Spine, t: Tree, b: Spine)
    requires Apart(a, t, b) && t.Br?
    ensures t.l.Br? ==> Apart(a, RotatedRight(t), b)
    ensures t.r.Br? ==> Apart(a, RotatedLeft(t), b)
  {
    RotateSimple(t);
    hide Simple, SSimple, Nodes, SNodes, RotatedRight, RotatedLeft;
  }

  lemma RotateRight(left: Links, right: Links, root: Addr, lp: Addr, rp: Addr, a: Spine, t: Tree, b: Spine)
    requires Parts(left, right, root, lp, rp, a, t, b) && t.Br? && t.l.Br?
    ensures root in left && left[root] == t.l.n && t.l.n in right
    ensures Parts(left[root := right[t.l.n]], right[t.l.n := root], t.l.n, lp, rp, a, RotatedRight(t), b)
  {
    assert Shape(left, right, t.l, left[root]);
    Grandchildren(t);
    var left', right' := left[root := right[t.l.n]], right[t.l.n := root];
    Ends(a, t, b);
    SpinesFrame(left, right, left', right', a, b);
    ShapeFrame(left, right, left', right', t.l.l, left[t.l.n]);
    ShapeFrame(left, right, left', right', t.l.r, right[t.l.n]);
    ShapeFrame(left, right, left', right', t.r, right[root]);
    hide SShape, SSimple, SNodes, Simple, Nodes, Apart;
    RotateApart(a, t, b);
    assert Shape(left', right', Br(t.l.r, t.n, t.r), root);
  }

  lemma RotateLeft(left: Links, right: Links, root: Addr, lp: Addr, rp: Addr, a: Spine, t: Tree, b: Spine)
    requires Parts(left, right, root, lp, rp, a, t, b) && t.Br? && t.r.Br?
    ensures root in right && right[root] == t.r.n && t.r.n in left
    ensures Parts(left[t.r.n := root], right[root := left[t.r.n]], t.r.n, lp, rp, a, RotatedLeft(t), b)
  {
    assert Shape(left, right, t.r, right[root]);
    Grandchildren(t);
    var left', right' := left[t.r.n := root], right[root := left[t.r.n]];
    Ends(a, t, b);
    SpinesFrame(left, right, left', right', a, b);
    ShapeFrame(left, right, left', right', t.r.l, left[t.r.n]);
    ShapeFrame(left, right, left', right', t.r.r, right[t.r.n]);
    ShapeFrame(left, right, left', right', t.l, left[root]);
    hide SShape, SSimple, SNodes, Simple, Nodes, Apart;
    RotateApart(a, t, b);
    assert Shape(left', right', Br(t.l, t.n, t.r.l), root);
  }

  lemma SSimplePush(s: Spine, n: Addr, sub: Tree)
    requires SSimple(s) && Simple(sub) && n > DUMMY && n !in SNodes(s) && n !in Nodes(sub) && SNodes(s) !! Nodes(sub)
    ensures SSimple(Push(s, n, sub)) && SNodes(Push(s, n, sub)) == SNodes(s) + {n} + Nodes(sub)
  {
  }

  lemma LinkApart(a: Spine, t: Tree, b: Spine)
    requires Apart(a, t, b) && t.Br?
    ensures Apart(a, t.l, Push(b, t.n, t.r)) && Apart(Push(a, t.n, t.l), t.r, b)
  {
    SimpleParts(t);
    hide Simple, SSimple, Nodes, SNodes;
    SSimplePush(b, t.n, t.r);
    SSimplePush(a, t.n, t.l);
  }

  lemma LinkInorder(a: Spine, t: Tree, b: Spine)
    requires t.Br?
    ensures AllInorder(a, t.l, Push(b, t.n, t.r)) == AllInorder(a, t, b)
    ensures AllInorder(Push(a, t.n, t.l), t.r, b) == AllInorder(a, t, b)
  {
    Regroup(LeftInorder(a), Inorder(t.l), [t.n], Inorder(t.r), RightInorder(b));
  }

  /** SPLAY_LINKLEFT: the root and what is right of it go to the right spine. */
  lemma LinkLeft(left: Links, right: Links, root: Addr, lp: Addr, rp: Addr, a: Spine, t: Tree, b: Spine)
    requires Parts(left, right, root, lp, rp, a, t, b) && t.Br?
    ensures root in left && rp != root
    ensures Parts(left[rp := root], right, left[root], lp, root, a, t.l, Push(b, t.n, t.r))
  {
    var left' := left[rp := root];
    Ends(a, t, b);
    SpinesFrame(left, right, left', right, a, b);
    ShapeFrame(left, right, left', right, t.l, left[root]);
    ShapeFrame(left, right, left', right, t.r, right[root]);
    hide SSimple, SNodes, Simple, Nodes, Apart;
    LinkApart(a, t, b);
  }

  /** SPLAY_LINKRIGHT: the root and what is left of it go to the left spine. */
  lemma LinkRight(left: Links, right: Links, root: Addr, lp: Addr, rp: Addr, a: Spine, t: Tree, b: Spine)
    requires Parts(left, right, root, lp, rp, a, t, b) && t.Br?
    ensures root in right && lp != root
    ensures Parts(left, right[lp := root], right[root], root, rp, Push(a, t.n, t.l), t.r, b)
  {
    var right' := right[lp := root];
    Ends(a, t, b);
    SpinesFrame(left, right, left, right', a, b);
    ShapeFrame(left, right, left, right', t.r, right[root]);
    ShapeFrame(left, right, left, right', t.l, left[root]);
    hide SSimple, SNodes, Simple, Nodes, Apart;
    LinkApart(a, t, b);
  }

  function Assembled(a: Spine, t: Tree, b: Spine): Tree
    requires t.Br?
  {
    Br(PlugLeft(a, t.l), t.n, PlugRight(b, t.r))
  }

  lemma AssembledSimple(a: Spine, t: Tree, b: Spine)
    requires Apart(a, t, b) && t.Br?
    ensures Simple(Assembled(a, t, b))
    ensures t.n !in Nodes(PlugLeft(a, t.l)) && t.n !in Nodes(PlugRight(b, t.r))
    ensures DUMMY !in Nodes(PlugLeft(a, t.l)) && DUMMY !in Nodes(PlugRight(b, t.r)) && DUMMY != t.n
  {
    Ends(a, t, b);
    SimpleParts(t);
    PlugLeftInorder(a, t.l);
    PlugRightInorder(b, t.r);
    hide Simple, SSimple, Nodes, SNodes, PlugLeft, PlugRight;
    SimpleBr(PlugLeft(a, t.l), t.n, PlugRight(b, t.r));
  }

  lemma AssembledInorder(a: Spine, t: Tree, b: Spine)
    requires t.Br?
    ensures Inorder(Assembled(a, t, b)) == AllInorder(a, t, b)
  {
    PlugLeftInorder(a, t.l);
    PlugRightInorder(b, t.r);
    var x, y := PlugLeft(a, t.l), PlugRight(b, t.r);
    assert Inorder(Br(x, t.n, y)) == Inorder(x) + [t.n] + Inorder(y);
  }

  /** The first half of SPLAY_ASSEMBLE closes the open links. */
  lemma AssembleClose(left: Links, right: Links, root: Addr, lp: Addr, rp: Addr, a: Spine, t: Tree, b: Spine)
    requires Parts(left, right, root, lp, rp, a, t, b) && t.Br?
    ensures root in left && root in right
    ensures var right1 := right[lp := left[root]];
            var left1 := left[rp := right1[root]];
            && DUMMY in left1 && DUMMY in right1 && root in left1 && root in right1
            && Shape(left1, right1, PlugLeft(a, t.l), right1[DUMMY]) && Shape(left1, right1, PlugRight(b, t.r), left1[DUMMY])
  {
    var right1 := right[lp := left[root]];
    var left1 := left[rp := right1[root]];
    Ends(a, t, b);
    SpinesFrame(left, right, left1, right1, a, b);
    ShapeFrame(left, right, left1, right1, t.l, left[root]);
    ShapeFrame(left, right, left1, right1, t.r, right[root]);
    CloseLeft(left1, right1, a, t.l);
    CloseRight(left1, right1, b, t.r);
  }

  /** SPLAY_ASSEMBLE */
  lemma Assemble(left: Links, right: Links, root: Addr, lp: Addr, rp: Addr, a: Spine, t: Tree, b: Spine)
    requires Parts(left, right, root, lp, rp, a, t, b) && t.Br?
    ensures root in left && root in right
    ensures var right1 := right[lp := left[root]];
            var left1 := left[rp := right1[root]];
            && DUMMY in left1 && DUMMY in right1
            && var left2 := left1[root := right1[DUMMY]];
               var right2 := right1[root := left2[DUMMY]];
               Shape(left2, right2, Assembled(a, t, b), root)
    ensures Simple(Assembled(a, t, b)) && Inorder(Assembled(a, t, b)) == AllInorder(a, t, b)
  {
    AssembleClose(left, right, root, lp, rp, a, t, b);
    AssembledSimple(a, t, b);
    AssembledInorder(a, t, b);
    var right1 := right[lp := left[root]];
    var left1 := left[rp := right1[root]];
    var left2 := left1[root := right1[DUMMY]];
    var right2 := right1[root := left2[DUMMY]];
    RootOf(left, right, t, root);
    hide SShape, SSimple, SNodes, Simple, Nodes, Apart, Parts, PlugLeft, PlugRight, Inorder, AllInorder;
    AssembleRoot(left1, right1, PlugLeft(a, t.l), PlugRight(b, t.r), root);
  }

  lemma RootOf(left: Links, right: Links, t: Tree, root: Addr)
    requires Shape(left, right, t, root) && t.Br?
    ensures root == t.n
  {
  }

  /** The root takes over the two closed spines. */
  lemma AssembleRoot(left: Links, right: Links, x: Tree, y: Tree, root: Addr)
    requires root in left && root in right && DUMMY in left && DUMMY in right && root != DUMMY
    requires Shape(left, right, x, right[DUMMY]) && Shape(left, right, y, left[DUMMY])
    requires root !in Nodes(x) && root !in Nodes(y)
    ensures var left2 := left[root := right[DUMMY]];
            Shape(left2, right[root := left2[DUMMY]], Br(x, root, y), root)
  {
    var left2 := left[root := right[DUMMY]];
    var right2 := right[root := left2[DUMMY]];
    hide Nodes;
    ShapeFrame(left, right, left2, right2, x, right[DUMMY]);
    ShapeFrame(left, right, left2, right2, y, left[DUMMY]);
  }

  // ---------------------------------------------------------------- keys

  ghost predicate Sorted(key: map<Addr, int>, s: seq<Addr>)
  {
    (forall n <- s :: n in key) && forall i, j :: 0 <= i < j < |s| ==> key[s[i]] < key[s[j]]
  }

  ghost predicate AllBelow(key: map<Addr, int>, s: seq<Addr>, k: int)
  {
    forall n <- s :: n in key && key[n] < k
  }

  ghost predicate AllAbove(key: map<Addr, int>, s: seq<Addr>, k: int)
  {
    forall n <- s :: n in key && key[n] > k
  }

  lemma SortedSides(key: map<Addr, int>, s: seq<Addr>, n: Addr, u: seq<Addr>)
    requires Sorted(key, s + [n] + u)
    ensures n in key && AllBelow(key, s, key[n]) && AllAbove(key, u, key[n]) && Sorted(key, s) && Sorted(key, u)
  {
    var w := s + [n] + u;
    assert w[|s|] == n;
    forall x | x in s ensures x in key && key[x] < key[n] {
      var i :| 0 <= i < |s| && s[i] == x;
      assert w[i] == x;
    }
    forall x | x in u ensures x in key && key[x] > key[n] {
      var i :| 0 <= i < |u| && u[i] == x;
      assert w[|s| + 1 + i] == x;
    }
    assert forall i :: 0 <= i < |s| ==> s[i] == w[i];
    assert forall i :: 0 <= i < |u| ==> u[i] == w[|s| + 1 + i];
  }

  lemma SortedMiddle(key: map<Addr, int>, x: seq<Addr>, s: seq<Addr>, y: seq<Addr>)
    requires Sorted(key, x + s + y)
    ensures Sorted(key, s)
  {
    var w := x + s + y;
    assert forall i :: 0 <= i < |s| ==> s[i] == w[|x| + i];
  }

  /** What goes to a spine is on its side of `k`. */
  lemma LinkSides(key: map<Addr, int>, a: Spine, t: Tree, b: Spine, k: int)
    requires t.Br? && Sorted(key, AllInorder(a, t, b)) && AllBelow(key, LeftInorder(a), k) && AllAbove(key, RightInorder(b), k)
    ensures t.n in key && Sorted(key, Inorder(t))
    ensures k < key[t.n] ==> AllAbove(key, RightInorder(Push(b, t.n, t.r)), k)
    ensures key[t.n] < k ==> AllBelow(key, LeftInorder(Push(a, t.n, t.l)), k)
  {
    SortedMiddle(key, LeftInorder(a), Inorder(t), RightInorder(b));
    SortedSides(key, Inorder(t.l), t.n, Inorder(t.r));
  }

  /** Keys of children, for the second comparison of a turn. */
  lemma ChildKeys(key: map<Addr, int>, t: Tree)
    requires t.Br? && Sorted(key, Inorder(t))
    ensures t.l.Br? ==> t.l.n in key && key[t.l.n] < key[t.n]
    ensures t.r.Br? ==> t.r.n in key && key[t.r.n] > key[t.n]
  {
    SortedSides(key, Inorder(t.l), t.n, Inorder(t.r));
    assert t.l.Br? ==> t.l.n in Inorder(t.l);
    assert t.r.Br? ==> t.r.n in Inorder(t.r);
  }

  lemma PartsRoot(left: Links, right: Links, root: Addr, lp: Addr, rp: Addr, a: Spine, t: Tree, b: Spine)
    requires Parts(left, right, root, lp, rp, a, t, b) && t.Br?
    ensures root == t.n && root in left && root in right && root != DUMMY && DUMMY in left && DUMMY in right
    ensures if t.l.Leaf? then left[root] == NIL else left[root] == t.l.n != NIL && t.l.n in left && t.l.n in right
    ensures if t.r.Leaf? then right[root] == NIL else right[root] == t.r.n != NIL && t.r.n in left && t.r.n in right
    ensures lp != root && rp != root
  {
    Ends(a, t, b);
    assert Simple(t.l) && Simple(t.r) && Shape(left, right, t.l, left[root]) && Shape(left, right, t.r, right[root]);
  }

  lemma {:induction false} InorderNodes(t: Tree)
    ensures forall n: Addr :: n in Inorder(t) <==> n in Nodes(t)
  {
    if t.Br? {
      InorderNodes(t.l);
      InorderNodes(t.r);
    }
  }

  lemma {:induction false} SpineNodes(s: Spine)
    ensures forall n: Addr :: n in LeftInorder(s) <==> n in SNodes(s)
    ensures forall n: Addr :: n in RightInorder(s) <==> n in SNodes(s)
  {
    if s.Push? {
      SpineNodes(s.up);
      InorderNodes(s.sub);
    }
  }

  /** In the middle of splaying a tree with nodes `all` for `k`. */
  ghost predicate Mid(key: map<Addr, int>, left: Links, right: Links, root: Addr, lp: Addr, rp: Addr,
                      a: Spine, t: Tree, b: Spine, k: int, all: seq<Addr>)
  {
    && Parts(left, right, root, lp, rp, a, t, b) && t.Br?
    && AllInorder(a, t, b) == all && Sorted(key, all) && AllBelow(key, LeftInorder(a), k) && AllAbove(key, RightInorder(b), k)
  }

  /** Outside of the nodes `all`, and the local variable of SPLAY, the links are the same. */
  ghost predicate Wrote(left: Links, right: Links, left': Links, right': Links, all: seq<Addr>)
  {
    && left.Keys <= left'.Keys && right.Keys <= right'.Keys
    && forall n: Addr :: n !in all && n != DUMMY ==> (n in left ==> left'[n] == left[n]) && (n in right ==> right'[n] == right[n])
  }

  lemma WroteLeft(left: Links, right: Links, left': Links, right': Links, all: seq<Addr>, x: Addr, v: Addr)
    requires Wrote(left, right, left', right', all) && (x in all || x == DUMMY)
    ensures Wrote(left, right, left'[x := v], right', all)
  {
  }

  lemma WroteRight(left: Links, right: Links, left': Links, right': Links, all: seq<Addr>, x: Addr, v: Addr)
    requires Wrote(left, right, left', right', all) && (x in all || x == DUMMY)
    ensures Wrote(left, right, left', right'[x := v], all)
  {
  }

  /** What a turn of the loop reads and writes is there, and belongs to the tree. */
  lemma MidRoot(key: map<Addr, int>, left: Links, right: Links, root: Addr, lp: Addr, rp: Addr,
                a: Spine, t: Tree, b: Spine, k: int, all: seq<Addr>)
    requires Mid(key, left, right, root, lp, rp, a, t, b, k, all)
    ensures t.Br? && root == t.n && root in key && root in left && root in right && root in all && root != DUMMY
    ensures DUMMY in left && DUMMY in right && lp != root && rp != root
    ensures (lp in all || lp == DUMMY) && (rp in all || rp == DUMMY)
    ensures if t.l.Leaf? then left[root] == NIL else
      left[root] == t.l.n != NIL && t.l.n in right && t.l.n in left && t.l.n in key && t.l.n in all && key[t.l.n] < key[root]
    ensures if t.r.Leaf? then right[root] == NIL else
      right[root] == t.r.n != NIL && t.r.n in left && t.r.n in right && t.r.n in key && t.r.n in all && key[t.r.n] > key[root]
  {
    PartsRoot(left, right, root, lp, rp, a, t, b);
    LinkSides(key, a, t, b, k);
    ChildKeys(key, t);
    Above(a);
    Above(b);
    SpineNodes(a);
    SpineNodes(b);
    InorderNodes(t);
    assert t.l.Br? ==> t.l.n in Nodes(t.l);
    assert t.r.Br? ==> t.r.n in Nodes(t.r);
  }

  lemma MidRotate(key: map<Addr, int>, left: Links, right: Links, root: Addr, lp: Addr, rp: Addr,
                  a: Spine, t: Tree, b: Spine, k: int, all: seq<Addr>)
    requires Mid(key, left, right, root, lp, rp, a, t, b, k, all)
    ensures t.l.Br? ==>
      root in left && t.l.n in right
      && Mid(key, left[root := right[t.l.n]], right[t.l.n := root], t.l.n, lp, rp, a, RotatedRight(t), b, k, all)
      && Size(RotatedRight(t)) == Size(t)
    ensures t.r.Br? ==>
      root in right && t.r.n in left
      && Mid(key, left[t.r.n := root], right[root := left[t.r.n]], t.r.n, lp, rp, a, RotatedLeft(t), b, k, all)
      && Size(RotatedLeft(t)) == Size(t)
  {
    hide Parts, Sorted, AllBelow, AllAbove, Size;
    RotateInorder(t);
    hide Inorder, LeftInorder, RightInorder;
    if t.l.Br? {
      RotateRight(left, right, root, lp, rp, a, t, b);
    }
    if t.r.Br? {
      RotateLeft(left, right, root, lp, rp, a, t, b);
    }
  }

  lemma MidLink(key: map<Addr, int>, left: Links, right: Links, root: Addr, lp: Addr, rp: Addr,
                a: Spine, t: Tree, b: Spine, k: int, all: seq<Addr>)
    requires Mid(key, left, right, root, lp, rp, a, t, b, k, all) && t.n in key && root in left && root in right
    ensures k < key[t.n] && t.l.Br? ==>
      Mid(key, left[rp := root], right, left[root], lp, root, a, t.l, Push(b, t.n, t.r), k, all)
    ensures k > key[t.n] && t.r.Br? ==>
      Mid(key, left, right[lp := root], right[root], root, rp, Push(a, t.n, t.l), t.r, b, k, all)
    ensures Size(t.l) < Size(t) && Size(t.r) < Size(t)
  {
    hide Parts, Sorted, AllBelow, AllAbove;
    LinkInorder(a, t, b);
    LinkSides(key, a, t, b, k);
    LinkLeft(left, right, root, lp, rp, a, t, b);
    LinkRight(left, right, root, lp, rp, a, t, b);
    hide Inorder, LeftInorder, RightInorder;
  }

  /** Nothing lies between `k` and the key at the root. */
  predicate Reached(key: map<Addr, int>, t: Tree, k: int)
  {
    t.Br? && t.n in key && (key[t.n] == k || (k < key[t.n] && t.l.Leaf?) || (k > key[t.n] && t.r.Leaf?))
  }

  lemma MidEnd(key: map<Addr, int>, left: Links, right: Links, root: Addr, lp: Addr, rp: Addr,
               a: Spine, t: Tree, b: Spine, k: int, all: seq<Addr>)
    requires Mid(key, left, right, root, lp, rp, a, t, b, k, all) && Reached(key, t, k)
    ensures var u := Assembled(a, t, b);
            AllBelow(key, Inorder(u.l), k) && AllAbove(key, Inorder(u.r), k)
  {
    LinkSides(key, a, t, b, k);
    SortedSides(key, Inorder(t.l), t.n, Inorder(t.r));
    PlugLeftInorder(a, t.l);
    PlugRightInorder(b, t.r);
  }
}
