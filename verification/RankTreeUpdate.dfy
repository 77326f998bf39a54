/**
 RB_INSERT and RB_REMOVE on linked nodes: both keep the tree well formed, and change its in-order
 sequence by exactly one node.
 */
module RankTreeUpdate {
  import opened RankTree
  import opened RankTreeHeap
  import opened RankTreeOps
  import opened RankTreeSplice

  /** Contents outside the tree do not matter. */
  lemma HoldsRestrict(m: Mem, m': Mem, root: Node?, t: Tree<Node>)
    requires Holds(m, root, t) && forall n <- Nodes(t) :: n in m ==> n in m' && m'[n] == m[n]
    ensures Holds(m', root, t)
  {
    ShapeFrame(m, m', t, null);
  }

  lemma HoldsWithin(h: Head, s: set<Node>, t: Tree<Node>)
    requires Holds(Snap(s), h.root, t) && Nodes(t) <= s
    ensures Holds(Snap(Nodes(t)), h.root, t)
  {
    HoldsRestrict(Snap(s), Snap(Nodes(t)), h.root, t);
  }

  // ---------------------------------------------------------------- insertion

  /** RB_SET and the store through the pointer to the empty slot. */
  function AttachMem(m: Mem, par: Node?, d: Dir, elm: Node): Mem
    requires par != null ==> par in m
  {
    var m1 := m[elm := Cell(par, null, null, false, false)];
    if par == null then m1 else m1[par := m1[par].SetLink(d, elm)]
  }

  function NewLeaf(elm: Node): Tree<Node> { Bin(elm, Nil, Nil, false, false) }

  lemma AttachHangs(m: Mem, root: Node?, c: Ctx<Node>, elm: Node)
    requires Hangs(m, root, c, Nil) && elm !in CtxNodes(c)
    ensures Parent(c) != null ==> Parent(c) in m
    ensures var d := if c.Hole? then c.dir else Left;
            Hangs(AttachMem(m, Parent(c), d, elm), if Parent(c) == null then elm else root, c, NewLeaf(elm))
  {
    if c.Hole? {
      var m' := AttachMem(m, c.n, c.dir, elm);
      CtxFrame(m, m', root, c.up, c.n);
      ShapeFrame(m, m', c.sib, c.n);
    }
  }

  method Attach(h: Head, par: Node?, d: Dir, elm: Node, ghost s: set<Node>)
    requires elm in s && (par != null ==> par in s && par != elm)
    modifies h`root, s
    ensures Snap(s) == AttachMem(old(Snap(s)), par, d, elm)
    ensures h.root == if par == null then elm else old(h.root)
  {
    elm.up, elm.left, elm.right, elm.redL, elm.redR := par, null, null, false, false;
    assert Snap(s) == old(Snap(s))[elm := Cell(par, null, null, false, false)];
    if par == null {
      h.root := elm;
    } else {
      par.SetLink(d, elm, s);
    }
  }

  /** The weak-AVL tree after inserting `elm` in the hole of `c`. */
  ghost function Inserted(c: Ctx<Node>, elm: Node): Tree<Node>
  {
    RankTree.InsertColor(c, NewLeaf(elm))
  }

  lemma InsertedFacts(c: Ctx<Node>, elm: Node)
    requires WAVL(Plug(c, Nil))
    ensures Growing(c, NewLeaf(elm)) && WAVL(Inserted(c, elm))
    ensures Inorder(Inserted(c, elm)) == Before(c) + [elm] + After(c)
  {
    PlugWAVL(c, Nil);
    InsertColorWAVL(c, NewLeaf(elm));
    InsertColorInorder(c, NewLeaf(elm));
    assert Inorder(NewLeaf(elm)) == [elm];
  }

  lemma NodesOfInorder(t: Tree<Node>)
    ensures Nodes(t) == set n | n in Inorder(t)
  {
    InorderNodes(t);
  }

  lemma InsertedNodes(c: Ctx<Node>, elm: Node)
    requires WAVL(Plug(c, Nil))
    ensures Nodes(Inserted(c, elm)) == Nodes(Plug(c, Nil)) + {elm}
  {
    InsertedFacts(c, elm);
    NodesOfInorder(Inserted(c, elm));
    NodesOfInorder(Plug(c, Nil));
    PlugInorder(c, Nil);
  }

  /** RB_INSERT_FINISH: the new leaf goes into the empty slot, and the climb restores the ranks. */
  method InsertFinish(h: Head, par: Node?, d: Dir, elm: Node, ghost c: Ctx<Node>, ghost s: set<Node>)
    returns (ghost turns: nat)
    requires s == Nodes(Plug(c, Nil)) + {elm} && elm !in Nodes(Plug(c, Nil))
    requires Hangs(Snap(s), h.root, c, Nil) && WAVL(Plug(c, Nil))
    requires par == Parent(c) && (c.Hole? ==> c.dir == d)
    modifies h`root, s
    ensures Holds(Snap(s), h.root, Inserted(c, elm))
    ensures turns <= Depth(c)
  {
    turns := 0;
    PlugNodes(c, Nil);
    AttachHangs(Snap(s), h.root, c, elm);
    InsertedFacts(c, elm);
    hide Hangs, Holds, Growing, WAVL, AttachMem;
    if par == null {
      Attach(h, par, Left, elm, s);
      HangsPlug(Snap(s), h.root, c, NewLeaf(elm));
    } else {
      Attach(h, par, d, elm, s);
      turns := RankTreeHeap.InsertColor(h, par, elm, c, NewLeaf(elm), s);
    }
  }

  /** The walk of RB_INSERT to an equal element, or to an empty slot below `par`. */
  method Descend(h: Head, key: int) returns (r: Node?, par: Node?, d: Dir, ghost c: Ctx<Node>)
    requires Valid(h)
    ensures r != null ==> r in Elems(h) && r.key == key
    ensures r == null ==> Searching(h, c, Nil, key) && par == Parent(c) && (c.Hole? ==> c.dir == d)
  {
    r, par, d, c := h.root, null, Left, Top;
    ghost var t := h.tree;
    SearchStart(h, key);
    assert r == Root(t);
    hide Searching;
    while r != null
      invariant Searching(h, c, t, key) && r == Root(t)
      invariant par == Parent(c) && (c.Hole? ==> c.dir == d)
      decreases t
    {
      SearchDown(h, c, t, key);
      par := r;
      if key < par.key {
        r, d := par.left, Left;
        c, t := Down(c, t, Left), t.l;
      } else if key > par.key {
        r, d := par.right, Right;
        c, t := Down(c, t, Right), t.r;
      } else {
        SearchHit(h, c, t, key);
        return;
      }
    }
  }

  lemma SlotReady(h: Head, c: Ctx<Node>, elm: Node)
    requires Valid(h) && elm !in Nodes(h.tree) && Searching(h, c, Nil, elm.key)
    ensures Plug(c, Nil) == h.tree && WAVL(Plug(c, Nil))
    ensures Hangs(Snap(Nodes(h.tree) + {elm}), h.root, c, Nil)
    ensures Ordered(Before(c) + [elm] + After(c))
    ensures Elems(h) == Before(c) + After(c) && forall n <- Elems(h) :: n.key != elm.key
  {
    SearchMiss(h, c, elm.key);
    OrderedJoin(Before(c), elm, After(c));
    var m, m' := Snap(Nodes(h.tree)), Snap(Nodes(h.tree) + {elm});
    HangsPlug(m, h.root, c, Nil);
    HoldsRestrict(m, m', h.root, h.tree);
    HangsPlug(m', h.root, c, Nil);
  }

  /** RB_INSERT: an element with the same key, or null after inserting `elm` as element `i`. `turns` counts the
      turns of the climb. */
  method Insert(h: Head, elm: Node) returns (r: Node?, ghost i: nat, ghost turns: nat)
    requires Valid(h) && elm !in Nodes(h.tree)
    modifies h, Nodes(h.tree), elm
    ensures Valid(h)
    ensures r == null <==> forall n <- old(Elems(h)) :: n.key != elm.key
    ensures r != null ==> r in Elems(h) && r.key == elm.key
    ensures r != null ==> unchanged(h) && Snap(Nodes(h.tree)) == old(Snap(Nodes(h.tree))) && unchanged(elm)
    ensures r == null ==> i <= |old(Elems(h))| && Elems(h) == old(Elems(h))[..i] + [elm] + old(Elems(h))[i..]
    ensures r == null ==> Nodes(h.tree) == old(Nodes(h.tree)) + {elm}
    ensures Pow2(turns) <= (|old(Elems(h))| + 1) * (|old(Elems(h))| + 1)
  {
    turns := 0;
    var par, d;
    ghost var c;
    assert allocated(Nodes(h.tree));
    r, par, d, c := Descend(h, elm.key);
    i := |Before(c)|;
    LevelsBound(h.tree, 0);
    if r == null {
      SlotReady(h, c, elm);
      assert Before(c) == Elems(h)[..i] && After(c) == Elems(h)[i..];
      hide Hangs, Holds, WAVL, Ordered, Nodes, Plug, Inorder, Pow2, Depth;
      turns := InsertAt(h, par, d, elm, c);
      TurnsBound(c, turns);
    }
  }

  lemma TurnsBound(c: Ctx<Node>, turns: nat)
    requires WAVL(Plug(c, Nil)) && turns <= Depth(c)
    ensures Pow2(turns) <= (|Inorder(Plug(c, Nil))| + 1) * (|Inorder(Plug(c, Nil))| + 1)
  {
    DepthHeight(c, Nil);
    LevelsBound(Plug(c, Nil), turns);
  }

  method InsertAt(h: Head, par: Node?, d: Dir, elm: Node, ghost c: Ctx<Node>) returns (ghost turns: nat)
    requires Plug(c, Nil) == h.tree && WAVL(h.tree) && elm !in Nodes(h.tree)
    requires Hangs(Snap(Nodes(h.tree) + {elm}), h.root, c, Nil)
    requires Ordered(Before(c) + [elm] + After(c))
    requires par == Parent(c) && (c.Hole? ==> c.dir == d)
    modifies h, Nodes(h.tree), elm
    ensures Valid(h) && Elems(h) == Before(c) + [elm] + After(c)
    ensures Nodes(h.tree) == old(Nodes(h.tree)) + {elm}
    ensures turns <= Depth(c)
  {
    ghost var s := Nodes(h.tree) + {elm};
    InsertedFacts(c, elm);
    InsertedNodes(c, elm);
    hide Hangs, Holds, WAVL, Ordered, Nodes, Inserted, Plug, Inorder, Depth;
    turns := InsertFinish(h, par, d, elm, c, s);
    h.tree := Inserted(c, elm);
    assert Nodes(h.tree) == s;
  }

  /** `new_` goes between element `i` and its neighbour on side `d`. */
  ghost predicate Between(e: seq<Node>, i: nat, d: Dir, new_: Node)
  {
    && i < |e|
    && (d == Right ==> e[i].key < new_.key && (i + 1 < |e| ==> new_.key < e[i + 1].key))
    && (d == Left ==> new_.key < e[i].key && (i > 0 ==> e[i - 1].key < new_.key))
  }

  lemma GapOrdered(e: seq<Node>, j: nat, new_: Node)
    requires Ordered(e) && j <= |e|
    requires (j > 0 ==> e[j - 1].key < new_.key) && (j < |e| ==> new_.key < e[j].key)
    ensures Ordered(e[..j] + [new_] + e[j..])
  {
    assert e[..j] + e[j..] == e;
    forall k | 0 <= k < |e| ensures if k < j then e[k].key < new_.key else new_.key < e[k].key {
    }
    SidesOf(e, j, new_.key);
    hide *;
    OrderedJoin(e[..j], new_, e[j..]);
  }

  lemma SidesOf(e: seq<Node>, j: nat, key: int)
    requires j <= |e| && forall k :: 0 <= k < |e| ==> if k < j then e[k].key < key else key < e[k].key
    ensures Below(e[..j], key) && Above(e[j..], key)
  {
  }

  lemma BetweenOrdered(e: seq<Node>, i: nat, d: Dir, new_: Node)
    requires Ordered(e) && Between(e, i, d, new_)
    ensures var j := if d == Right then i + 1 else i; j <= |e| && Ordered(e[..j] + [new_] + e[j..])
  {
    hide Ordered;
    GapOrdered(e, if d == Right then i + 1 else i, new_);
  }

  /** Going down on side `d` leaves in front of, or behind, the subtree what was there. */
  lemma DownOrder(k: Ctx<Node>, u: Tree<Node>, d: Dir)
    requires u.Bin?
    ensures d == Left ==> Before(Down(k, u, d)) == Before(k) && Inorder(u.l) + After(Down(k, u, d)) == Inorder(u) + After(k)
    ensures d == Right ==> After(Down(k, u, d)) == After(k) && Before(Down(k, u, d)) + Inorder(u.r) == Before(k) + Inorder(u)
  {
    var l, r, b, a := Inorder(u.l), Inorder(u.r), Before(k), After(k);
    assert Inorder(u) == l + [u.n] + r;
    assert d == Left ==> After(Down(k, u, d)) == [u.n] + r + a;
    assert d == Right ==> Before(Down(k, u, d)) == b + l + [u.n];
    hide *;
    SplitAround(b, l, u.n, r, a);
  }

  lemma SplitAround(b: seq<Node>, l: seq<Node>, n: Node, r: seq<Node>, a: seq<Node>)
    ensures l + ([n] + r + a) == (l + [n] + r) + a && (b + l + [n]) + r == b + (l + [n] + r)
  {
  }

  lemma SlotStart(c: Ctx<Node>, t: Tree<Node>, d: Dir)
    requires t.Bin?
    ensures var k, u := Down(c, t, d), t.Child(d);
            && (d == Right ==> Before(k) == Before(c) + Inorder(t.l) + [t.n] && Inorder(u) + After(k) == Inorder(t.r) + After(c))
            && (d == Left ==> Before(k) + Inorder(u) == Before(c) + Inorder(t.l) && After(k) == [t.n] + (Inorder(t.r) + After(c)))
  {
  }

  lemma SlotEnd(k: Ctx<Node>)
    ensures Inorder(Nil) + After(k) == After(k) && Before(k) + Inorder(Nil) == Before(k)
  {
  }

  /** The walk of RB_INSERT_NEXT (`d == Right`) or RB_INSERT_PREV to the empty slot next to `elm`. */
  method NeighbourSlot(h: Head, elm: Node, d: Dir, ghost c: Ctx<Node>, ghost t: Tree<Node>)
    returns (par: Node, side: Dir, ghost k: Ctx<Node>)
    requires Hangs(Snap(Nodes(h.tree)), h.root, c, t) && t.Bin? && t.n == elm
    ensures Hangs(Snap(Nodes(h.tree)), h.root, k, Nil) && Plug(k, Nil) == Plug(c, t)
    ensures k.Hole? && par == k.n && side == k.dir
    ensures d == Right ==> Before(k) == Before(c) + Inorder(t.l) + [elm] && After(k) == Inorder(t.r) + After(c)
    ensures d == Left ==> Before(k) == Before(c) + Inorder(t.l) && After(k) == [elm] + (Inorder(t.r) + After(c))
  {
    ghost var m := Snap(Nodes(h.tree));
    HangsRoot(m, h.root, c, t);
    DownPlug(m, h.root, c, t, d);
    SlotStart(c, t, d);
    hide Hangs, Plug, Inorder, Before, After;
    var x := elm.Link(d);
    par, side := elm, d;
    k := Down(c, t, d);
    ghost var u := t.Child(d);
    while x != null
      invariant Hangs(m, h.root, k, u) && Plug(k, u) == Plug(c, t) && x == Root(u)
      invariant k.Hole? && par == k.n && side == k.dir
      invariant d == Right ==> Before(k) == Before(c) + Inorder(t.l) + [elm] && Inorder(u) + After(k) == Inorder(t.r) + After(c)
      invariant d == Left ==> Before(k) + Inorder(u) == Before(c) + Inorder(t.l) && After(k) == [elm] + (Inorder(t.r) + After(c))
      decreases u
    {
      HangsRoot(m, h.root, k, u);
      DownPlug(m, h.root, k, u, d.Other());
      DownOrder(k, u, d.Other());
      par, side, x := x, d.Other(), x.Link(d.Other());
      k, u := Down(k, u, d.Other()), u.Child(d.Other());
    }
    SlotEnd(k);
  }

  lemma SlotHangs(h: Head, c: Ctx<Node>, elm: Node)
    requires Hangs(Snap(Nodes(h.tree)), h.root, c, Nil) && Plug(c, Nil) == h.tree
    ensures Hangs(Snap(Nodes(h.tree) + {elm}), h.root, c, Nil)
  {
    var m, m' := Snap(Nodes(h.tree)), Snap(Nodes(h.tree) + {elm});
    HangsPlug(m, h.root, c, Nil);
    HoldsRestrict(m, m', h.root, h.tree);
    HangsPlug(m', h.root, c, Nil);
  }

  /** RB_INSERT_NEXT (`d == Right`) and RB_INSERT_PREV: `new_` becomes the neighbour of element `i`. */
  method InsertNeighbour(h: Head, elm: Node, new_: Node, d: Dir, ghost i: nat)
    requires Valid(h) && At(Elems(h), i, elm) && new_ !in Nodes(h.tree) && Between(Elems(h), i, d, new_)
    modifies h, Nodes(h.tree), new_
    ensures Valid(h)
    ensures var j := if d == Right then i + 1 else i; Elems(h) == old(Elems(h))[..j] + [new_] + old(Elems(h))[j..]
    ensures Nodes(h.tree) == old(Nodes(h.tree)) + {new_}
  {
    assert allocated(Nodes(h.tree));
    InorderNodes(h.tree);
    ghost var c, t := Locate(Top, h.tree, elm);
    assert Plug(Top, h.tree) == h.tree;
    HangsPlug(Snap(Nodes(h.tree)), h.root, c, t);
    OrderAt(c, t);
    SamePosition(Elems(h), Before(c) + Inorder(t.l), elm, Inorder(t.r) + After(c), i);
    BetweenOrdered(Elems(h), i, d, new_);
    hide Hangs, Holds, WAVL, Ordered, Nodes, Plug, Inorder, Between, Before, After, Pow2;
    var par, side;
    ghost var k;
    par, side, k := NeighbourSlot(h, elm, d, c, t);
    SlotHangs(h, k, new_);
    ghost var j := if d == Right then i + 1 else i;
    assert Before(k) == Elems(h)[..j] && After(k) == Elems(h)[j..];
    var _ := InsertAt(h, par, side, new_, k);
  }

  // ---------------------------------------------------------------- removal

  lemma {:induction false} LeftmostFirst(c: Ctx<Node>, t: Tree<Node>)
    requires t.Bin?
    ensures Inorder(t)[0] == Leftmost(c, t).1.n
    decreases t
  {
    if t.l.Bin? {
      LeftmostFirst(Hole(t.n, Left, t.r, t.redL, t.redR, c), t.l);
    }
  }

  /** The only child of a node, or what is left of its successor, has no long edges. */
  lemma MovedIsShort(c: Ctx<Node>, t: Tree<Node>)
    requires t.Bin? && WAVL(t)
    ensures t.l.Nil? && t.r.Bin? ==> !t.r.redL && !t.r.redR
    ensures t.r.Nil? && t.l.Bin? ==> !t.l.redL && !t.l.redR
    ensures t.l.Bin? && t.r.Bin? ==> var u := Leftmost(Top, t.r).1.r; u.Bin? ==> !u.redL && !u.redR
  {
    if t.l.Nil? {
      OnlyChildIsLeaf(t, Left);
    } else if t.r.Nil? {
      OnlyChildIsLeaf(t, Right);
    } else {
      LeftmostFits(Top, t.r);
      OnlyChildIsLeaf(Leftmost(Top, t.r).1, Left);
    }
  }

  lemma SpliceOutIs(c: Ctx<Node>, t: Tree<Node>)
    requires t.Bin? && t.l.Bin? && t.r.Bin?
    ensures SpliceOut(c, t) == (SplicedCtx(PiecesOf(c, t)), PiecesOf(c, t).rest)
  {
  }

  /** The first half of RB_REMOVE: take `out` out of the tree; the rank below `par` has shrunk. */
  method TakeOut(h: Head, out: Node, ghost c: Ctx<Node>, ghost t: Tree<Node>, ghost s: set<Node>)
    returns (par: Node?, child: Node?)
    requires s == Nodes(h.tree) && Hangs(Snap(s), h.root, c, t) && t.Bin? && t.n == out && WAVL(t)
    modifies h`root, s
    ensures Hangs(Snap(s), h.root, SpliceOut(c, t).0, SpliceOut(c, t).1)
    ensures par == Parent(SpliceOut(c, t).0) && child == Root(SpliceOut(c, t).1)
  {
    HangsRoot(Snap(s), h.root, c, t);
    hide Hangs, WAVL;
    if out.left == null || out.right == null {
      MovedIsShort(c, t);
      par, child := TakeOne(h, out, c, t, if out.right == null then Right else Left, s);
    } else {
      SpliceOutIs(c, t);
      par, child := TakeTwo(h, out, c, t, s);
    }
  }

  method TakeOne(h: Head, out: Node, ghost c: Ctx<Node>, ghost t: Tree<Node>, d: Dir, ghost s: set<Node>)
    returns (par: Node?, child: Node?)
    requires Hangs(Snap(s), h.root, c, t) && t.Bin? && t.n == out && t.Child(d).Nil?
    requires var u := t.Child(d.Other()); u.Bin? ==> !u.redL && !u.redR
    modifies h`root, s
    ensures Hangs(Snap(s), h.root, c, t.Child(d.Other()))
    ensures par == Parent(c) && child == Root(t.Child(d.Other()))
  {
    HangsRoot(Snap(s), h.root, c, t);
    BypassHangs(Snap(s), h.root, c, t, d);
    hide Hangs, BypassMem;
    par, child := out.up, out.Link(d.Other());
    Bypass(h, out, child, s);
  }

  method TakeTwo(h: Head, out: Node, ghost c: Ctx<Node>, ghost t: Tree<Node>, ghost s: set<Node>)
    returns (par: Node?, child: Node?)
    requires s == Nodes(h.tree) && Hangs(Snap(s), h.root, c, t) && WAVL(t)
    requires t.Bin? && t.n == out && t.l.Bin? && t.r.Bin?
    modifies h`root, s
    ensures Hangs(Snap(s), h.root, SplicedCtx(PiecesOf(c, t)), PiecesOf(c, t).rest)
    ensures par == Parent(SplicedCtx(PiecesOf(c, t))) && child == Root(PiecesOf(c, t).rest)
  {
    ghost var p := PiecesOf(c, t);
    DownPlug(Snap(s), h.root, c, t, Right);
    LeftmostFirst(Top, t.r);
    MovedIsShort(c, t);
    SpliceReady(Snap(s), h.root, c, t);
    hide Hangs, WAVL, SpliceMem, Spliceable, Layout, SplicedCtx, Leftmost;
    var nx := DescendTo(h, out.right, Left, Down(c, t, Right), t.r);
    SpliceHangs(Snap(s), h.root, p);
    par, child := Splice(h, out, nx, s);
  }

  lemma SpliceReady(m: Mem, root: Node?, c: Ctx<Node>, t: Tree<Node>)
    requires Hangs(m, root, c, t) && t.Bin? && t.l.Bin? && t.r.Bin?
    requires var u := Leftmost(Top, t.r).1.r; u.Bin? ==> !u.redL && !u.redR
    ensures var p := PiecesOf(c, t);
            && Layout(m, root, p) && Spliceable(m, p.out, p.nx)
            && p.out == t.n && p.nx == Leftmost(Top, t.r).1.n && p.c == c
            && m[t.n].up == Parent(c) && m[t.n].right == t.r.n
            && m[p.nx].right == Root(p.rest) && m[p.nx].up == p.Low() && (p.k.Top? <==> t.r.n == p.nx)
  {
    HangsRoot(m, root, c, t);
    LayoutIntro(m, root, c, t);
    LayoutSpliceable(m, root, PiecesOf(c, t));
  }

  /** `r` is `e` without its element number `i`, which is `n`. */
  ghost predicate Without(e: seq<Node>, i: nat, n: Node, r: seq<Node>)
  {
    i < |e| && e[i] == n && r == e[..i] + e[i + 1..]
  }

  lemma WithoutOrdered(e: seq<Node>, i: nat, n: Node, r: seq<Node>)
    requires Ordered(e) && Without(e, i, n, r)
    ensures Ordered(r) && (set x | x in r) == (set x | x in e) - {n}
  {
    WithoutElements(e, i, n, r);
    WithoutSorted(e, i, n, r);
  }

  lemma WithoutSorted(e: seq<Node>, i: nat, n: Node, r: seq<Node>)
    requires Ordered(e) && Without(e, i, n, r)
    ensures Ordered(r)
  {
    forall j, k | 0 <= j < k < |r| ensures r[j].key < r[k].key {
      assert r[j] == e[if j < i then j else j + 1] && r[k] == e[if k < i then k else k + 1];
    }
  }

  lemma WithoutElements(e: seq<Node>, i: nat, n: Node, r: seq<Node>)
    requires Ordered(e) && Without(e, i, n, r)
    ensures (set x | x in r) == (set x | x in e) - {n}
  {
    assert e == e[..i] + [n] + e[i + 1..];
    OrderedAround(e[..i], n, e[i + 1..]);
    hide Ordered;
    assert n !in r;
  }

  lemma WithoutMiddle(l: seq<Node>, n: Node, r: seq<Node>, a: seq<Node>, z: seq<Node>)
    ensures Without(a + (l + [n] + r) + z, |a + l|, n, a + l + r + z)
  {
    var e := a + (l + [n] + r) + z;
    assert e == (a + l) + [n] + (r + z);
    assert e[..|a + l|] == a + l && e[|a + l| + 1..] == r + z;
  }

  lemma RemovedOrder(c: Ctx<Node>, t: Tree<Node>)
    requires t.Bin?
    ensures Without(Inorder(Plug(c, t)), |Before(c) + Inorder(t.l)|, t.n, Inorder(RankTree.Remove(c, t)))
  {
    RemoveInorder(c, t);
    PlugInorder(c, t);
    WithoutMiddle(Inorder(t.l), t.n, Inorder(t.r), Before(c), After(c));
  }

  /** What RB_REMOVE leaves is well formed, and has exactly the other nodes. */
  lemma RemovedValid(c: Ctx<Node>, t: Tree<Node>)
    requires t.Bin? && Ordered(Inorder(Plug(c, t))) && WAVL(Plug(c, t))
    ensures WAVL(RankTree.Remove(c, t)) && Ordered(Inorder(RankTree.Remove(c, t)))
    ensures Nodes(RankTree.Remove(c, t)) == Nodes(Plug(c, t)) - {t.n}
  {
    RemoveWAVL(c, t);
    RemovedOrder(c, t);
    NodesOfInorder(RankTree.Remove(c, t));
    NodesOfInorder(Plug(c, t));
    hide *;
    WithoutOrdered(Inorder(Plug(c, t)), |Before(c) + Inorder(t.l)|, t.n, Inorder(RankTree.Remove(c, t)));
  }

  /** RB_REMOVE: exactly the node `out`, which is element `i`, goes away. `turns` counts the turns of the climb. */
  method Remove(h: Head, out: Node) returns (ghost i: nat, ghost turns: nat)
    requires Valid(h) && out in Nodes(h.tree)
    modifies h, Nodes(h.tree)
    ensures Valid(h)
    ensures Without(old(Elems(h)), i, out, Elems(h))
    ensures Nodes(h.tree) == old(Nodes(h.tree)) - {out}
    ensures Pow2(turns) <= (|old(Elems(h))| + 1) * (|old(Elems(h))| + 1)
  {
    ghost var s := Nodes(h.tree);
    ghost var c, t := Locate(Top, h.tree, out);
    assert Plug(Top, h.tree) == h.tree;
    HangsPlug(Snap(s), h.root, c, t);
    RemovedOrder(c, t);
    RemovedValid(c, t);
    i := |Before(c) + Inorder(t.l)|;
    PlugWAVL(c, t);
    SpliceDepth(c, t);
    hide Hangs, Holds, WAVL, Fits, Plug, RankTree.Remove, Ordered, Inorder, Nodes, Height, Pow2, SpliceOut, Depth;
    turns := RemoveAt(h, out, c, t, s);
    LevelsBound(old(h.tree), turns);
  }

  /** RB_FOREACH_SAFE with a body that removes what it is at: meets every element once, in order, and none is left. */
  method RemoveEach(h: Head) returns (met: seq<Node>)
    requires Valid(h)
    modifies h, Nodes(h.tree)
    ensures Valid(h) && Elems(h) == [] && met == old(Elems(h))
  {
    hide *;
    assert allocated(Nodes(h.tree));
    met := [];
    var x := MinMax(h, Left);
    while x != null
      invariant Valid(h) && Nodes(h.tree) <= old(Nodes(h.tree))
      invariant x == (if Elems(h) == [] then null else Elems(h)[0]) && met + Elems(h) == old(Elems(h))
      decreases |Elems(h)|
    {
      ghost var s := Elems(h);
      met := met + [x];
      x := RemoveFirst(h, x);
      assert s == [s[0]] + Elems(h);
    }
  }

  method RemoveFirst(h: Head, x: Node) returns (y: Node?)
    requires Valid(h) && Elems(h) != [] && x == Elems(h)[0]
    modifies h, Nodes(h.tree)
    ensures Valid(h) && Elems(h) == old(Elems(h))[1..] && Nodes(h.tree) <= old(Nodes(h.tree))
    ensures y == if Elems(h) == [] then null else Elems(h)[0]
  {
    assert allocated(Nodes(h.tree));
    InorderNodes(h.tree);
    ghost var s := Elems(h);
    hide Valid, Ordered, Nodes, Inorder, Pow2;
    ghost var j, turns;
    y := Neighbour(h, x, Right, 0);
    ElemsOrdered(h);
    j, turns := Remove(h, x);
    FirstOnlyOf(s, j, x);
  }

  lemma ElemsOrdered(h: Head)
    requires Valid(h)
    ensures Ordered(Elems(h))
  {
  }

  lemma FirstOnlyOf(s: seq<Node>, i: nat, n: Node)
    requires Ordered(s) && s != [] && s[0] == n && i < |s| && s[i] == n
    ensures i == 0 && s[..0] + s[1..] == s[1..]
  {
  }

  /** The second half of RB_REMOVE: repair the ranks, unless the tree has become empty or a leaf. */
  method Repair(h: Head, par: Node?, child: Node?, ghost k: Ctx<Node>, ghost rest: Tree<Node>, ghost s: set<Node>)
    returns (ghost turns: nat)
    requires Hangs(Snap(s), h.root, k, rest) && par == Parent(k) && child == Root(rest)
    requires WAVL(rest) && Fits(k, Rank(rest) + 1)
    modifies h`root, s
    ensures Holds(Snap(s), h.root, RankTree.RemoveColor(k, rest))
    ensures turns <= Depth(k)
  {
    turns := 0;
    if par != null {
      turns := RankTreeHeap.RemoveColor(h, par, child, k, rest, s);
    }
  }

  lemma RemoveIs(c: Ctx<Node>, t: Tree<Node>)
    requires t.Bin?
    ensures RankTree.Remove(c, t) == RankTree.RemoveColor(SpliceOut(c, t).0, SpliceOut(c, t).1)
  {
  }

  method RemoveAt(h: Head, out: Node, ghost c: Ctx<Node>, ghost t: Tree<Node>, ghost s: set<Node>)
    returns (ghost turns: nat)
    requires s == Nodes(h.tree) && Hangs(Snap(s), h.root, c, t) && t.Bin? && t.n == out && WAVL(t) && Fits(c, Rank(t))
    requires Nodes(RankTree.Remove(c, t)) <= s
    modifies h, s
    ensures h.tree == RankTree.Remove(c, t) && Holds(Snap(Nodes(h.tree)), h.root, h.tree)
    ensures turns <= Depth(SpliceOut(c, t).0)
  {
    hide *;
    SpliceFits(c, t);
    RemoveIs(c, t);
    ghost var k, rest := SpliceOut(c, t).0, SpliceOut(c, t).1;
    ghost var result := RankTree.Remove(c, t);
    var par, child := TakeOut(h, out, c, t, s);
    turns := Repair(h, par, child, k, rest, s);
    h.tree := result;
    HoldsWithin(h, s, result);
  }
}
