/**
 The rank-balanced ("weak-AVL") tree of tree.h as a mathematical object.

 A tree carries its nodes and, on every node, the two "red" bits that say whether the edge to
 the left or to the right child is long (rank difference 2) or short (rank difference 1).
 A `Ctx` is a tree with one subtree cut out: the path from the hole up to the root. The climbs
 of the C macros are recursions over a context; RankTreeHeap.dfy shows that the pointer code
 computes exactly the functions defined here.
 */
module RankTree {

  datatype Dir = Left | Right
  {
    function Other(): Dir { if this == Left then Right else Left }
  }

  datatype Tree<N> = Nil | Bin(n: N, l: Tree<N>, r: Tree<N>, redL: bool, redR: bool)
  {
    function Child(d: Dir): Tree<N>
      requires Bin?
    { if d == Left then l else r }

    function Red(d: Dir): bool
      requires Bin?
    { if d == Left then redL else redR }
  }

  datatype Ctx<N> = Top | Hole(n: N, dir: Dir, sib: Tree<N>, redHole: bool, redSib: bool, up: Ctx<N>)

  /** The node `n` whose child on side `d` is `near` and whose other child is `far`. */
  function Mk<N>(n: N, d: Dir, near: Tree<N>, far: Tree<N>, redNear: bool, redFar: bool): (t: Tree<N>)
  {
    if d == Left then Bin(n, near, far, redNear, redFar) else Bin(n, far, near, redFar, redNear)
  }

  function Plug<N>(c: Ctx<N>, t: Tree<N>): Tree<N>
    decreases c
  {
    match c
    case Top => t
    case Hole(n, d, s, a, b, up) => Plug(up, Mk(n, d, t, s, a, b))
  }

  /** The context `c` seen from further up: `outer` continues where `c` ends. */
  function Extend<N>(c: Ctx<N>, outer: Ctx<N>): Ctx<N>
  {
    match c
    case Top => outer
    case Hole(n, d, s, a, b, up) => Hole(n, d, s, a, b, Extend(up, outer))
  }

  /** How many levels a climb from the hole to the root passes. */
  function Depth<N>(c: Ctx<N>): nat
  {
    if c.Top? then 0 else 1 + Depth(c.up)
  }

  // ---------------------------------------------------------------- contents, in key order

  function Inorder<N>(t: Tree<N>): seq<N>
  {
    match t
    case Nil => []
    case Bin(n, l, r, _, _) => Inorder(l) + [n] + Inorder(r)
  }

  /** The nodes that come before, and after, everything in the hole. */
  function Before<N>(c: Ctx<N>): seq<N>
  {
    match c
    case Top => []
    case Hole(n, d, s, _, _, up) => if d == Left then Before(up) else Before(up) + Inorder(s) + [n]
  }

  function After<N>(c: Ctx<N>): seq<N>
  {
    match c
    case Top => []
    case Hole(n, d, s, _, _, up) => if d == Left then [n] + Inorder(s) + After(up) else After(up)
  }

  /** The contents of `Mk`: what lies on the `near` side of `n` is read first or last. */
  function Joined<N>(d: Dir, near: seq<N>, n: N, far: seq<N>): seq<N>
  {
    if d == Left then near + [n] + far else far + [n] + near
  }

  lemma MkInorder<N>(n: N, d: Dir, near: Tree<N>, far: Tree<N>, a: bool, b: bool)
    ensures Inorder(Mk(n, d, near, far, a, b)) == Joined(d, Inorder(near), n, Inorder(far))
  {
  }

  /** One rotation keeps the order: (x m y) p z is x m (y p z), on either side. */
  lemma RotateOrder<N>(d: Dir, x: seq<N>, m: N, y: seq<N>, p: N, z: seq<N>)
    ensures Joined(d, Joined(d, x, m, y), p, z) == Joined(d, x, m, Joined(d.Other(), z, p, y))
  {
  }

  lemma JoinOuter<N>(a: seq<N>, d: Dir, t: seq<N>, n: N, s: seq<N>, z: seq<N>)
    ensures a + Joined(d, t, n, s) + z == if d == Left then a + t + ([n] + s + z) else (a + s + [n]) + t + z
  {
  }

  /** Moving up one level moves the parent and the sibling from the context into the tree. */
  lemma AscendOrder<N>(c: Ctx<N>, t: seq<N>)
    requires c.Hole?
    ensures Before(c.up) + Joined(c.dir, t, c.n, Inorder(c.sib)) + After(c.up) == Before(c) + t + After(c)
  {
    JoinOuter(Before(c.up), c.dir, t, c.n, Inorder(c.sib), After(c.up));
  }

  lemma {:induction false} PlugInorder<N>(c: Ctx<N>, t: Tree<N>)
    ensures Inorder(Plug(c, t)) == Before(c) + Inorder(t) + After(c)
    decreases c
  {
    match c
    case Top =>
    case Hole(n, d, s, a, b, up) =>
      AscendOrder(c, Inorder(t));
      MkInorder(n, d, t, s, a, b);
      PlugInorder(up, Mk(n, d, t, s, a, b));
  }

  // ---------------------------------------------------------------- ranks

  function Len(red: bool): nat { if red then 2 else 1 }

  /** The rank of a tree, read along its left spine; null has rank 0. */
  function Rank<N>(t: Tree<N>): nat
  {
    match t
    case Nil => 0
    case Bin(_, l, _, a, _) => Rank(l) + Len(a)
  }

  /** The weak-AVL rules: both sides give the same rank, and a leaf has rank 1. */
  ghost predicate WAVL<N>(t: Tree<N>)
  {
    match t
    case Nil => true
    case Bin(_, l, r, a, b) =>
      && WAVL(l) && WAVL(r)
      && Rank(l) + Len(a) == Rank(r) + Len(b)
      && (l.Nil? && r.Nil? ==> !a)
  }

  /** Plugging a weak-AVL tree of rank `k` into the hole gives a weak-AVL tree. */
  ghost predicate Fits<N>(c: Ctx<N>, k: nat)
  {
    match c
    case Top => true
    case Hole(_, _, s, a, b, up) =>
      && WAVL(s)
      && k + Len(a) == Rank(s) + Len(b)
      && (k == 0 && s.Nil? ==> !a)
      && Fits(up, k + Len(a))
  }

  lemma RankOfMk<N>(n: N, d: Dir, near: Tree<N>, far: Tree<N>, a: bool, b: bool)
    requires WAVL(near) && WAVL(far) && Rank(near) + Len(a) == Rank(far) + Len(b)
    requires near.Nil? && far.Nil? ==> !a
    ensures WAVL(Mk(n, d, near, far, a, b)) && Rank(Mk(n, d, near, far, a, b)) == Rank(near) + Len(a)
  {
  }

  lemma Parts<N>(t: Tree<N>, d: Dir)
    requires WAVL(t) && t.Bin?
    ensures WAVL(t.Child(d)) && Rank(t) == Rank(t.Child(d)) + Len(t.Red(d))
    ensures WAVL(t.Child(d.Other())) && Rank(t) == Rank(t.Child(d.Other())) + Len(t.Red(d.Other()))
  {
  }

  lemma RankZero<N>(t: Tree<N>)
    ensures Rank(t) == 0 <==> t.Nil?
  {
  }

  lemma MkRules<N>(n: N, d: Dir, near: Tree<N>, far: Tree<N>, a: bool, b: bool)
    ensures WAVL(Mk(n, d, near, far, a, b)) <==>
            WAVL(near) && WAVL(far) && Rank(near) + Len(a) == Rank(far) + Len(b) && (near.Nil? && far.Nil? ==> !a)
    ensures WAVL(Mk(n, d, near, far, a, b)) ==> Rank(Mk(n, d, near, far, a, b)) == Rank(near) + Len(a)
  {
  }

  /** A whole tree is weak-AVL exactly when the part in the hole is and the context fits its rank. */
  lemma {:induction false} PlugWAVL<N>(c: Ctx<N>, t: Tree<N>)
    ensures WAVL(Plug(c, t)) <==> WAVL(t) && Fits(c, Rank(t))
    decreases c
  {
    match c
    case Top =>
    case Hole(n, d, s, a, b, up) =>
      PlugWAVL(up, Mk(n, d, t, s, a, b));
      MkRules(n, d, t, s, a, b);
      RankZero(t);
      hide WAVL, Rank, Mk;
  }

  // ---------------------------------------------------------------- insertion

  /** A tree whose rank has just grown: a new leaf, or a node with exactly one long edge whose
      short edge leads to the child that grew. */
  ghost predicate Grown<N>(t: Tree<N>)
  {
    t.Bin? && WAVL(t) && ((t.l.Nil? && t.r.Nil?) || t.redL != t.redR)
  }

  /** Bring the child of `e` on the side away from `d` above `e`, which is the `d` child of some
      parent; the edges of the raised child keep their bits. */
  function RaiseInner<N>(e: Tree<N>, d: Dir): Tree<N>
    requires e.Bin? && e.Child(d.Other()).Bin?
  {
    var c := e.Child(d.Other());
    var inner := c.Red(d);
    var lowered := Mk(e.n, d, e.Child(d), c.Child(d), false, inner);
    Mk(c.n, d, lowered, c.Child(d.Other()), false, false)
  }

  /** The rotations of INSERT_COLOR at parent `p` with grown child `e` on side `d`. */
  function InsertRotate<N>(p: N, d: Dir, e: Tree<N>, z: Tree<N>): Tree<N>
    requires e.Bin? && (e.Red(d) ==> e.Child(d.Other()).Bin?)
  {
    var (top, outer) :=
      if e.Red(d) then (RaiseInner(e, d), e.Child(d.Other()).Red(d.Other())) else (e, false);
    Mk(top.n, d, top.Child(d), Mk(p, d, top.Child(d.Other()), z, outer, false), false, false)
  }

  /** INSERT_COLOR: the tree `t` in the hole of `c` has grown by one rank. */
  function InsertColor<N>(c: Ctx<N>, t: Tree<N>): Tree<N>
    requires t.Bin?
    decreases c
  {
    match c
    case Top => t
    case Hole(p, d, s, a, b, up) =>
      if a then Plug(up, Mk(p, d, t, s, false, b))
      else if !b then InsertColor(up, Mk(p, d, t, s, false, true))
      else if t.Red(d) && t.Child(d.Other()).Nil? then Plug(c, t) // excluded by the rank rules
      else Plug(up, InsertRotate(p, d, t, s))
  }

  lemma InsertRotateInorder<N>(p: N, d: Dir, e: Tree<N>, z: Tree<N>)
    requires e.Bin? && (e.Red(d) ==> e.Child(d.Other()).Bin?)
    ensures Inorder(InsertRotate(p, d, e, z)) == Joined(d, Inorder(e), p, Inorder(z))
  {
    var x, y := e.Child(d), e.Child(d.Other());
    if e.Red(d) {
      var m, inner, outer := y.n, Inorder(y.Child(d)), Inorder(y.Child(d.Other()));
      RotateOrder(d.Other(), outer, m, inner, e.n, Inorder(x));
      RotateOrder(d, Joined(d, Inorder(x), e.n, inner), m, outer, p, Inorder(z));
    } else {
      RotateOrder(d, Inorder(x), e.n, Inorder(y), p, Inorder(z));
    }
  }

  lemma {:induction false} InsertColorInorder<N>(c: Ctx<N>, t: Tree<N>)
    requires t.Bin?
    ensures Inorder(InsertColor(c, t)) == Before(c) + Inorder(t) + After(c)
    decreases c
  {
    match c
    case Top =>
    case Hole(p, d, s, a, b, up) =>
      AscendOrder(c, Inorder(t));
      if a {
        PlugInorder(up, Mk(p, d, t, s, false, b));
      } else if !b {
        InsertColorInorder(up, Mk(p, d, t, s, false, true));
      } else if t.Red(d) && t.Child(d.Other()).Nil? {
        PlugInorder(c, t);
      } else {
        InsertRotateInorder(p, d, t, s);
        PlugInorder(up, InsertRotate(p, d, t, s));
      }
  }

  /** What holds each time round the loop of INSERT_COLOR. */
  ghost predicate Growing<N>(c: Ctx<N>, t: Tree<N>)
  {
    Grown(t) && Fits(c, Rank(t) - 1)
  }

  /** In the rotation case the rank rules settle which child goes up: `child` has been set. */
  lemma RotationChild<N>(c: Ctx<N>, t: Tree<N>)
    requires Growing(c, t) && c.Hole? && !c.redHole && c.redSib
    ensures t.redL != t.redR
    ensures t.Red(c.dir) ==> t.Child(c.dir.Other()).Bin?
  {
    RankZero(c.sib);
  }

  /** Both edges of the parent were short: lengthening the other one lets the parent grow. */
  lemma GrowUp<N>(c: Ctx<N>, t: Tree<N>)
    requires Growing(c, t) && c.Hole? && !c.redHole && !c.redSib
    ensures Growing(c.up, Mk(c.n, c.dir, t, c.sib, false, true))
  {
    RankOfMk(c.n, c.dir, t, c.sib, false, true);
  }

  lemma InsertRotateRank<N>(p: N, d: Dir, e: Tree<N>, z: Tree<N>)
    requires Grown(e) && e.redL != e.redR && WAVL(z) && Rank(z) + 2 == Rank(e)
    ensures e.Red(d) ==> e.Child(d.Other()).Bin?
    ensures WAVL(InsertRotate(p, d, e, z)) && Rank(InsertRotate(p, d, e, z)) == Rank(e)
  {
    RankZero(e.l);
    RankZero(e.r);
    var x, y := e.Child(d), e.Child(d.Other());
    Parts(e, d);
    if e.Red(d) {
      Parts(y, d);
      RankOfMk(e.n, d, x, y.Child(d), false, y.Red(d));
      RankOfMk(p, d, y.Child(d.Other()), z, y.Red(d.Other()), false);
    } else {
      RankOfMk(p, d, y, z, false, false);
    }
  }

  /** INSERT_COLOR restores every weak-AVL rule. */
  lemma {:induction false} InsertColorWAVL<N>(c: Ctx<N>, t: Tree<N>)
    requires Growing(c, t)
    ensures WAVL(InsertColor(c, t))
    decreases c
  {
    match c
    case Top =>
    case Hole(p, d, s, a, b, up) =>
      RankZero(s);
      if a {
        PlugWAVL(up, Mk(p, d, t, s, false, b));
      } else if !b {
        GrowUp(c, t);
        InsertColorWAVL(up, Mk(p, d, t, s, false, true));
      } else {
        RotationChild(c, t);
        InsertRotateRank(p, d, t, s);
        PlugWAVL(up, InsertRotate(p, d, t, s));
      }
  }

  // ---------------------------------------------------------------- removal

  /** The rotations of REMOVE_COLOR at parent `p`: `t`, the shrunken child on side `d`, hangs three
      ranks below `p`, and its sibling `s` one rank below `p` with at least one short edge. */
  function RemoveRotate<N>(p: N, d: Dir, t: Tree<N>, s: Tree<N>): Tree<N>
    requires s.Bin? && (s.Red(d.Other()) ==> s.Child(d).Bin?)
  {
    var z := s.Child(d.Other());
    if s.Red(d.Other()) then
      var e := s.Child(d);
      Mk(e.n, d,
         Mk(p, d, t, e.Child(d), false, e.Red(d)),
         Mk(s.n, d, e.Child(d.Other()), z, e.Red(d.Other()), false),
         true, true)
    else
      Mk(s.n, d, Mk(p, d, t, s.Child(d), !s.Red(d), false), z, s.Red(d), true)
  }

  /** The tree `s` with both of its edges made short. */
  function Shorten<N>(s: Tree<N>): Tree<N>
    requires s.Bin?
  {
    s.(redL := false, redR := false)
  }

  /** The loop of REMOVE_COLOR: the tree `t` in the hole of `c` has shrunk by one rank. */
  function RemoveClimb<N>(c: Ctx<N>, t: Tree<N>): Tree<N>
    decreases c
  {
    match c
    case Top => t
    case Hole(p, d, s, a, b, up) =>
      if !a then Plug(up, Mk(p, d, t, s, true, b))
      else if b then RemoveClimb(up, Mk(p, d, t, s, true, false))
      else if s.Nil? then Plug(c, t) // excluded by the rank rules
      else if s.redL && s.redR then RemoveClimb(up, Mk(p, d, t, Shorten(s), true, false))
      else if s.Red(d.Other()) && s.Child(d).Nil? then Plug(c, t) // excluded by the rank rules
      else Plug(up, RemoveRotate(p, d, t, s))
  }

  /** REMOVE_COLOR: a parent that has become a leaf is demoted before the climb starts. */
  function RemoveColor<N>(c: Ctx<N>, t: Tree<N>): Tree<N>
  {
    if c.Hole? && c.sib.Nil? && t.Nil? then
      RemoveClimb(c.up, Mk(c.n, c.dir, t, c.sib, false, false))
    else
      RemoveClimb(c, t)
  }

  lemma RemoveRotateInorder<N>(p: N, d: Dir, t: Tree<N>, s: Tree<N>)
    requires s.Bin? && (s.Red(d.Other()) ==> s.Child(d).Bin?)
    ensures Inorder(RemoveRotate(p, d, t, s)) == Joined(d, Inorder(t), p, Inorder(s))
  {
    var e, z := s.Child(d), s.Child(d.Other());
    if s.Red(d.Other()) {
      var x, y := Inorder(e.Child(d)), Inorder(e.Child(d.Other()));
      RotateOrder(d, x, e.n, y, s.n, Inorder(z));
      RotateOrder(d, Inorder(t), p, x, e.n, Joined(d, y, s.n, Inorder(z)));
    } else {
      RotateOrder(d, Inorder(t), p, Inorder(e), s.n, Inorder(z));
    }
  }

  lemma {:induction false} RemoveClimbInorder<N>(c: Ctx<N>, t: Tree<N>)
    ensures Inorder(RemoveClimb(c, t)) == Before(c) + Inorder(t) + After(c)
    decreases c
  {
    match c
    case Top =>
    case Hole(p, d, s, a, b, up) =>
      AscendOrder(c, Inorder(t));
      if !a {
        PlugInorder(up, Mk(p, d, t, s, true, b));
      } else if b {
        RemoveClimbInorder(up, Mk(p, d, t, s, true, false));
      } else if s.Nil? {
        PlugInorder(c, t);
      } else if s.redL && s.redR {
        RemoveClimbInorder(up, Mk(p, d, t, Shorten(s), true, false));
      } else if s.Red(d.Other()) && s.Child(d).Nil? {
        PlugInorder(c, t);
      } else {
        RemoveRotateInorder(p, d, t, s);
        PlugInorder(up, RemoveRotate(p, d, t, s));
      }
  }

  lemma RemoveColorInorder<N>(c: Ctx<N>, t: Tree<N>)
    ensures Inorder(RemoveColor(c, t)) == Before(c) + Inorder(t) + After(c)
  {
    if c.Hole? && c.sib.Nil? && t.Nil? {
      AscendOrder(c, []);
      RemoveClimbInorder(c.up, Mk(c.n, c.dir, t, c.sib, false, false));
    } else {
      RemoveClimbInorder(c, t);
    }
  }

  /** What holds each time round the loop of REMOVE_COLOR. */
  ghost predicate Shrunk<N>(c: Ctx<N>, t: Tree<N>)
  {
    WAVL(t) && Fits(c, Rank(t) + 1) && (c.Hole? && t.Nil? ==> c.sib.Bin?)
  }

  /** The rank rules keep both null checks that REMOVE_COLOR leaves out from being needed. */
  lemma SiblingExists<N>(c: Ctx<N>, t: Tree<N>)
    requires Shrunk(c, t) && c.Hole? && c.redHole && !c.redSib
    ensures c.sib.Bin?
    ensures c.sib.Red(c.dir.Other()) && !c.sib.Red(c.dir) ==> c.sib.Child(c.dir).Bin?
  {
    RankZero(c.sib);
    Parts(c.sib, c.dir);
    RankZero(c.sib.Child(c.dir));
  }

  lemma RemoveRotateRank<N>(p: N, d: Dir, t: Tree<N>, s: Tree<N>)
    requires WAVL(t) && WAVL(s) && Rank(s) == Rank(t) + 2 && !(s.redL && s.redR)
    ensures s.Bin? && (s.Red(d.Other()) ==> s.Child(d).Bin?)
    ensures WAVL(RemoveRotate(p, d, t, s)) && Rank(RemoveRotate(p, d, t, s)) == Rank(t) + 3
  {
    RankZero(s);
    Parts(s, d);
    var e, z := s.Child(d), s.Child(d.Other());
    RankZero(e);
    if s.Red(d.Other()) {
      Parts(e, d);
      RankOfMk(p, d, t, e.Child(d), false, e.Red(d));
      RankOfMk(s.n, d, e.Child(d.Other()), z, e.Red(d.Other()), false);
    } else {
      RankOfMk(p, d, t, e, !s.Red(d), false);
      RankOfMk(s.n, d, Mk(p, d, t, e, !s.Red(d), false), z, s.Red(d), true);
    }
  }

  lemma ShortenRank<N>(s: Tree<N>)
    requires WAVL(s) && s.Bin? && s.redL && s.redR
    ensures WAVL(Shorten(s)) && Rank(Shorten(s)) + 1 == Rank(s)
  {
  }

  /** Both edges of the parent were long: shortening the other one lets the parent shrink. */
  lemma ShrinkUp<N>(c: Ctx<N>, t: Tree<N>)
    requires Shrunk(c, t) && c.Hole? && c.redHole && c.redSib
    ensures Shrunk(c.up, Mk(c.n, c.dir, t, c.sib, true, false))
  {
    RankOfMk(c.n, c.dir, t, c.sib, true, false);
  }

  /** Both edges of the sibling were long: shortening them lets the sibling and the parent shrink. */
  lemma ShrinkSibling<N>(c: Ctx<N>, t: Tree<N>)
    requires Shrunk(c, t) && c.Hole? && c.redHole && !c.redSib && c.sib.Bin? && c.sib.redL && c.sib.redR
    ensures Shrunk(c.up, Mk(c.n, c.dir, t, Shorten(c.sib), true, false))
  {
    ShortenRank(c.sib);
    RankOfMk(c.n, c.dir, t, Shorten(c.sib), true, false);
  }

  /** A parent that has become a leaf with long edges is demoted to a leaf of rank 1. */
  lemma ShrinkLeaf<N>(c: Ctx<N>, t: Tree<N>)
    requires Fits(c, Rank(t) + 1) && c.Hole? && c.sib.Nil? && t.Nil?
    ensures Shrunk(c.up, Mk(c.n, c.dir, t, c.sib, false, false))
  {
  }

  /** The climb of REMOVE_COLOR restores every weak-AVL rule. */
  lemma {:induction false} RemoveClimbWAVL<N>(c: Ctx<N>, t: Tree<N>)
    requires Shrunk(c, t)
    ensures WAVL(RemoveClimb(c, t))
    decreases c
  {
    match c
    case Top =>
    case Hole(p, d, s, a, b, up) =>
      if !a {
        RankOfMk(p, d, t, s, true, b);
        PlugWAVL(up, Mk(p, d, t, s, true, b));
      } else if b {
        ShrinkUp(c, t);
        RemoveClimbWAVL(up, Mk(p, d, t, s, true, false));
      } else {
        SiblingExists(c, t);
        if s.redL && s.redR {
          ShrinkSibling(c, t);
          RemoveClimbWAVL(up, Mk(p, d, t, Shorten(s), true, false));
        } else {
          RemoveRotateRank(p, d, t, s);
          PlugWAVL(up, RemoveRotate(p, d, t, s));
        }
      }
  }

  lemma RemoveColorWAVL<N>(c: Ctx<N>, t: Tree<N>)
    requires WAVL(t) && Fits(c, Rank(t) + 1)
    ensures WAVL(RemoveColor(c, t))
  {
    if c.Hole? && c.sib.Nil? && t.Nil? {
      ShrinkLeaf(c, t);
      RemoveClimbWAVL(c.up, Mk(c.n, c.dir, t, c.sib, false, false));
    } else {
      RemoveClimbWAVL(c, t);
    }
  }

  // ---------------------------------------------------------------- splicing a node out

  /** The leftmost subtree of `t` whose left child is null, and the way down to it; `c` is the
      way down to `t` itself. */
  function Leftmost<N>(c: Ctx<N>, t: Tree<N>): (m: (Ctx<N>, Tree<N>))
    requires t.Bin?
    ensures m.1.Bin? && m.1.l.Nil? && Plug(m.0, m.1) == Plug(c, t)
    decreases t
  {
    if t.l.Nil? then (c, t) else Leftmost(Hole(t.n, Left, t.r, t.redL, t.redR, c), t.l)
  }

  /** Removing the root of `t`, which hangs in the hole of `c`: the place whose rank shrinks, and
      what is left there. A root with two children is replaced by its successor, which takes over
      the children and the bits of the root. */
  function SpliceOut<N>(c: Ctx<N>, t: Tree<N>): (Ctx<N>, Tree<N>)
    requires t.Bin?
  {
    if t.l.Nil? || t.r.Nil? then
      (c, if t.r.Nil? then t.l else t.r)
    else
      var (k, m) := Leftmost(Top, t.r);
      (Extend(k, Hole(m.n, Right, t.l, t.redR, t.redL, c)), m.r)
  }

  /** RB_REMOVE of the root of `t`, which hangs in the hole of `c`. */
  function Remove<N>(c: Ctx<N>, t: Tree<N>): Tree<N>
    requires t.Bin?
  {
    var (k, rest) := SpliceOut(c, t);
    RemoveColor(k, rest)
  }

  lemma {:induction false} ExtendPlug<N>(k: Ctx<N>, c: Ctx<N>, t: Tree<N>)
    ensures Plug(Extend(k, c), t) == Plug(c, Plug(k, t))
    decreases k
  {
    match k
    case Top =>
    case Hole(n, d, s, a, b, up) => ExtendPlug(up, c, Mk(n, d, t, s, a, b));
  }

  lemma {:induction false} ExtendOrder<N>(k: Ctx<N>, c: Ctx<N>)
    ensures Before(Extend(k, c)) == Before(c) + Before(k)
    ensures After(Extend(k, c)) == After(k) + After(c)
    decreases k
  {
    match k
    case Top =>
    case Hole(n, d, s, a, b, up) => ExtendOrder(up, c);
  }

  lemma {:induction false} LeftmostBefore<N>(c: Ctx<N>, t: Tree<N>)
    requires t.Bin?
    ensures Before(Leftmost(c, t).0) == Before(c)
    decreases t
  {
    if t.l.Bin? {
      LeftmostBefore(Hole(t.n, Left, t.r, t.redL, t.redR, c), t.l);
    }
  }

  lemma SpliceOrder<N>(c: Ctx<N>, t: Tree<N>)
    requires t.Bin?
    ensures var (k, rest) := SpliceOut(c, t);
            Before(k) + Inorder(rest) + After(k) == Before(c) + Inorder(t.l) + Inorder(t.r) + After(c)
  {
    if t.l.Bin? && t.r.Bin? {
      var (spine, m) := Leftmost(Top, t.r);
      var outer := Hole(m.n, Right, t.l, t.redR, t.redL, c);
      LeftmostBefore(Top, t.r);
      ExtendOrder(spine, outer);
      PlugInorder(spine, m);
      SevenParts(Before(c), Inorder(t.l), m.n, Inorder(m.r), After(spine), After(c));
    }
  }

  lemma SevenParts<N>(b: seq<N>, l: seq<N>, n: N, r: seq<N>, a: seq<N>, z: seq<N>)
    ensures (b + l + [n] + []) + r + (a + z) == b + l + ([] + ([] + [n] + r) + a) + z
  {
  }

  /** Removing a node removes it from the order and leaves every other node where it was. */
  lemma RemoveInorder<N>(c: Ctx<N>, t: Tree<N>)
    requires t.Bin?
    ensures Inorder(Remove(c, t)) == Before(c) + Inorder(t.l) + Inorder(t.r) + After(c)
  {
    var (k, rest) := SpliceOut(c, t);
    RemoveColorInorder(k, rest);
    SpliceOrder(c, t);
  }

  /** A weak-AVL node with a null child has rank at most 2, and its other child is null or a leaf
      without long edges. */
  lemma OnlyChildIsLeaf<N>(t: Tree<N>, d: Dir)
    requires WAVL(t) && t.Bin? && t.Child(d).Nil?
    ensures Rank(t) == Rank(t.Child(d.Other())) + 1
    ensures var o := t.Child(d.Other()); o.Bin? ==> o.l.Nil? && o.r.Nil? && !o.redL && !o.redR
  {
    var o := t.Child(d.Other());
    Parts(t, d);
    RankZero(o);
    if o.Bin? {
      Parts(o, Left);
      RankZero(o.l);
      RankZero(o.r);
    }
  }

  lemma {:induction false} LeftmostFits<N>(c: Ctx<N>, t: Tree<N>)
    requires WAVL(t) && t.Bin? && Fits(c, Rank(t))
    ensures var (k, m) := Leftmost(c, t); WAVL(m) && Fits(k, Rank(m))
  {
    var (k, m) := Leftmost(c, t);
    PlugWAVL(c, t);
    PlugWAVL(k, m);
  }

  lemma {:induction false} ExtendFits<N>(k: Ctx<N>, c: Ctx<N>, t: Tree<N>, j: nat)
    requires Fits(k, j) && Rank(t) == j && WAVL(t) && Fits(c, Rank(Plug(k, t)))
    ensures Fits(Extend(k, c), j)
  {
    PlugWAVL(k, t);
    PlugWAVL(c, Plug(k, t));
    ExtendPlug(k, c, t);
    PlugWAVL(Extend(k, c), t);
  }

  lemma SuccessorFits<N>(c: Ctx<N>, t: Tree<N>)
    requires t.Bin? && t.l.Bin? && t.r.Bin? && WAVL(t) && Fits(c, Rank(t))
    ensures var (k, m) := Leftmost(Top, t.r);
            WAVL(m.r) && Fits(Extend(k, Hole(m.n, Right, t.l, t.redR, t.redL, c)), Rank(m.r) + 1)
  {
    var (k, m) := Leftmost(Top, t.r);
    var outer := Hole(m.n, Right, t.l, t.redR, t.redL, c);
    LeftmostFits(Top, t.r);
    OnlyChildIsLeaf(m, Left);
    assert Fits(outer, Rank(t.r)) by {
      Parts(t, Left);
      RankZero(t.r);
    }
    ExtendFits(k, outer, m, Rank(m));
  }

  lemma SpliceFits<N>(c: Ctx<N>, t: Tree<N>)
    requires t.Bin? && WAVL(t) && Fits(c, Rank(t))
    ensures var (k, rest) := SpliceOut(c, t); WAVL(rest) && Fits(k, Rank(rest) + 1)
  {
    Parts(t, Left);
    if t.l.Nil? {
      OnlyChildIsLeaf(t, Left);
    } else if t.r.Nil? {
      OnlyChildIsLeaf(t, Right);
    } else {
      SuccessorFits(c, t);
    }
  }

  /** RB_REMOVE of any node of a weak-AVL tree gives a weak-AVL tree. */
  lemma RemoveWAVL<N>(c: Ctx<N>, t: Tree<N>)
    requires t.Bin? && WAVL(Plug(c, t))
    ensures WAVL(Remove(c, t))
  {
    PlugWAVL(c, t);
    var (k, rest) := SpliceOut(c, t);
    SpliceFits(c, t);
    RemoveColorWAVL(k, rest);
  }
}
