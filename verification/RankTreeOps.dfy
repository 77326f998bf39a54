/**
 RB_FIND, RB_NFIND, RB_MINMAX, RB_NEXT and RB_PREV over a well-formed rank-balanced tree, and how many steps they take.
 `Elems` is the in-order sequence of nodes; every operation is specified by it.
 */
module RankTreeOps {
  import opened RankTree
  import opened RankTreeHeap

  ghost predicate Ordered(s: seq<Node>)
  {
    forall i, j :: 0 <= i < j < |s| ==> s[i].key < s[j].key
  }

  /** The pointers form the tree `h.tree`, which is weak-AVL and in strict key order. */
  ghost predicate Valid(h: Head)
    reads h, Nodes(h.tree)
  {
    Holds(Snap(Nodes(h.tree)), h.root, h.tree) && WAVL(h.tree) && Ordered(Inorder(h.tree))
  }

  ghost function Elems(h: Head): seq<Node>
    reads h
  {
    Inorder(h.tree)
  }

  ghost predicate Below(s: seq<Node>, key: int) { forall n <- s :: n.key < key }

  ghost predicate Above(s: seq<Node>, key: int) { forall n <- s :: key < n.key }

  lemma {:induction false} InorderNodes(t: Tree<Node>)
    ensures forall n :: n in Inorder(t) <==> n in Nodes(t)
  {
    if t.Bin? {
      InorderNodes(t.l);
      InorderNodes(t.r);
    }
  }

  /** Cutting an ordered sequence at an element. */
  lemma OrderedAround(a: seq<Node>, n: Node, b: seq<Node>)
    requires Ordered(a + [n] + b)
    ensures Ordered(a) && Ordered(b) && Below(a, n.key) && Above(b, n.key)
  {
    var s := a + [n] + b;
    forall x <- a ensures x.key < n.key {
      var i :| 0 <= i < |a| && a[i] == x;
      assert s[i] == x && s[|a|] == n;
    }
    forall x <- b ensures n.key < x.key {
      var i :| 0 <= i < |b| && b[i] == x;
      assert s[|a| + 1 + i] == x && s[|a|] == n;
    }
    assert forall i :: 0 <= i < |a| ==> a[i] == s[i];
    assert forall i :: 0 <= i < |b| ==> b[i] == s[|a| + 1 + i];
  }

  lemma OrderedJoin(a: seq<Node>, n: Node, b: seq<Node>)
    requires Ordered(a + b) && Below(a, n.key) && Above(b, n.key)
    ensures Ordered(a + [n] + b)
  {
    var s := a + [n] + b;
    forall i, j | 0 <= i < j < |s| ensures s[i].key < s[j].key {
      assert forall k :: 0 <= k < |a| ==> s[k] == a[k] == (a + b)[k];
      assert forall k :: |a| < k < |s| ==> s[k] == b[k - |a| - 1] == (a + b)[k - 1];
    }
  }

  /** What a search for `key` that has gone down to `t` knows: everything else is out of question. */
  ghost predicate Searching(h: Head, c: Ctx<Node>, t: Tree<Node>, key: int)
    reads h, Nodes(h.tree)
  {
    && Plug(c, t) == h.tree && Hangs(Snap(Nodes(h.tree)), h.root, c, t)
    && Ordered(Inorder(h.tree)) && Below(Before(c), key) && Above(After(c), key)
  }

  function Down(c: Ctx<Node>, t: Tree<Node>, d: Dir): Ctx<Node>
    requires t.Bin?
  {
    Hole(t.n, d, t.Child(d.Other()), t.Red(d), t.Red(d.Other()), c)
  }

  lemma CutAt<T>(a: seq<T>, l: seq<T>, n: T, r: seq<T>, z: seq<T>)
    ensures a + (l + [n] + r) + z == (a + l) + [n] + (r + z)
  {
  }

  /** The order of the whole tree, cut at the root of `t`. */
  lemma OrderAt(c: Ctx<Node>, t: Tree<Node>)
    requires t.Bin? && Ordered(Inorder(Plug(c, t)))
    ensures Inorder(Plug(c, t)) == (Before(c) + Inorder(t.l)) + [t.n] + (Inorder(t.r) + After(c))
    ensures Below(Before(c) + Inorder(t.l), t.n.key) && Above(Inorder(t.r) + After(c), t.n.key)
  {
    PlugInorder(c, t);
    CutAt(Before(c), Inorder(t.l), t.n, Inorder(t.r), After(c));
    OrderedAround(Before(c) + Inorder(t.l), t.n, Inorder(t.r) + After(c));
  }

  lemma DownPlug(m: Mem, root: Node?, c: Ctx<Node>, t: Tree<Node>, d: Dir)
    requires t.Bin?
    ensures Plug(Down(c, t, d), t.Child(d)) == Plug(c, t)
    ensures Hangs(m, root, c, t) <==> Hangs(m, root, Down(c, t, d), t.Child(d))
  {
    HangsUp(m, root, Down(c, t, d), t.Child(d));
  }

  lemma SearchDown(h: Head, c: Ctx<Node>, t: Tree<Node>, key: int)
    requires Searching(h, c, t, key) && t.Bin?
    ensures key < t.n.key ==> Searching(h, Down(c, t, Left), t.l, key)
    ensures key > t.n.key ==> Searching(h, Down(c, t, Right), t.r, key)
    ensures t.n in Nodes(h.tree) && t.n.left == Root(t.l) && t.n.right == Root(t.r)
  {
    var m := Snap(Nodes(h.tree));
    DownPlug(m, h.root, c, t, Left);
    DownPlug(m, h.root, c, t, Right);
    OrderAt(c, t);
    hide Plug, Hangs, Ordered, Inorder;
    Inner(m, t, Parent(c), Left);
    assert After(Down(c, t, Left)) == [t.n] + Inorder(t.r) + After(c);
    assert Before(Down(c, t, Right)) == Before(c) + Inorder(t.l) + [t.n];
  }

  lemma SearchStart(h: Head, key: int)
    requires Valid(h)
    ensures Searching(h, Top, h.tree, key)
  {
  }

  /** A search that ends at null has shown that no element has the key. */
  lemma SearchMiss(h: Head, c: Ctx<Node>, key: int)
    requires Searching(h, c, Nil, key)
    ensures Elems(h) == Before(c) + After(c) && forall n <- Elems(h) :: n.key != key
  {
    PlugInorder(c, Nil);
  }

  /** A search that ends at a node has found an element. */
  lemma SearchHit(h: Head, c: Ctx<Node>, t: Tree<Node>, key: int)
    requires Searching(h, c, t, key) && t.Bin?
    ensures t.n in Elems(h)
  {
    PlugInorder(c, t);
  }

  // ---------------------------------------------------------------- height

  function Height<N>(t: Tree<N>): nat
  {
    if t.Nil? then 0 else 1 + (if Height(t.l) > Height(t.r) then Height(t.l) else Height(t.r))
  }

  function Pow2(n: nat): nat
  {
    if n == 0 then 1 else 2 * Pow2(n - 1)
  }

  lemma {:induction false} HeightRank<N>(t: Tree<N>)
    requires WAVL(t)
    ensures Height(t) <= Rank(t)
  {
    if t.Bin? {
      HeightRank(t.l);
      HeightRank(t.r);
    }
  }

  lemma {:induction false} Pow2Mono(a: nat, b: nat)
    requires a <= b
    ensures Pow2(a) <= Pow2(b)
    decreases b
  {
    if a < b {
      Pow2Mono(a, b - 1);
    }
  }

  lemma SquareDouble(size: nat, n: nat)
    requires 2 * size <= n
    ensures 4 * (size * size) <= n * n
  {
    var d := n - 2 * size;
    assert n * n == 4 * (size * size) + 4 * (size * d) + d * d by {
      assert n * n == (2 * size + d) * (2 * size + d);
    }
  }

  /** A subtree two ranks lower needs half as many nodes. */
  lemma HalfSize(rank: nat, below: nat, size: nat, n: nat)
    requires rank <= below + 2 && Pow2(below) <= size * size && 2 * size <= n
    ensures Pow2(rank) <= n * n
  {
    Pow2Mono(rank, below + 2);
    assert Pow2(below + 2) == 2 * Pow2(below + 1) == 4 * Pow2(below);
    SquareDouble(size, n);
  }

  /** Rank bounds size: 2^rank <= (n+1)^2. */
  lemma {:induction false} RankSize<N>(t: Tree<N>)
    requires WAVL(t)
    ensures Pow2(Rank(t)) <= (|Inorder(t)| + 1) * (|Inorder(t)| + 1)
  {
    if t.Bin? {
      RankSize(t.l);
      RankSize(t.r);
      var a, b, n := |Inorder(t.l)| + 1, |Inorder(t.r)| + 1, |Inorder(t)| + 1;
      if a <= b {
        HalfSize(Rank(t), Rank(t.l), a, n);
      } else {
        HalfSize(Rank(t), Rank(t.r), b, n);
      }
    }
  }

  /** The height is at most 2*lg(n+1): 2^height <= (n+1)^2. */
  lemma HeightBound<N>(t: Tree<N>)
    requires WAVL(t)
    ensures Pow2(Height(t)) <= (|Inorder(t)| + 1) * (|Inorder(t)| + 1)
  {
    HeightRank(t);
    Pow2Mono(Height(t), Rank(t));
    RankSize(t);
  }

  /** What is above a subtree, and what is in it, fits into the height of the whole tree. */
  lemma {:induction false} DepthHeight<N>(c: Ctx<N>, t: Tree<N>)
    ensures Depth(c) + Height(t) <= Height(Plug(c, t))
    decreases c
  {
    if c.Hole? {
      DepthHeight(c.up, Mk(c.n, c.dir, t, c.sib, c.redHole, c.redSib));
    }
  }

  /** What is done once per level takes at most 2*lg(n+1) steps. */
  lemma LevelsBound<N>(t: Tree<N>, steps: nat)
    requires WAVL(t) && steps <= Height(t)
    ensures Pow2(steps) <= (|Inorder(t)| + 1) * (|Inorder(t)| + 1)
  {
    HeightBound(t);
    Pow2Mono(steps, Height(t));
  }

  lemma {:induction false} ExtendDepth<N>(k: Ctx<N>, c: Ctx<N>)
    ensures Depth(Extend(k, c)) == Depth(k) + Depth(c)
  {
    if k.Hole? {
      ExtendDepth(k.up, c);
    }
  }

  /** The climb after a removal starts inside the tree as it was. */
  lemma SpliceDepth<N>(c: Ctx<N>, t: Tree<N>)
    requires t.Bin?
    ensures Depth(SpliceOut(c, t).0) <= Height(Plug(c, t))
  {
    DepthHeight(c, t);
    if t.l.Bin? && t.r.Bin? {
      var (k, m) := Leftmost(Top, t.r);
      DepthHeight(k, m);
      ExtendDepth(k, Hole(m.n, Right, t.l, t.redR, t.redL, c));
    }
  }

  // ---------------------------------------------------------------- lookup

  /** RB_FIND. `steps` counts the nodes compared. */
  method Find(h: Head, key: int) returns (r: Node?, ghost steps: nat)
    requires Valid(h)
    ensures r != null ==> r in Elems(h) && r.key == key
    ensures r == null ==> forall n <- Elems(h) :: n.key != key
    ensures Pow2(steps) <= (|Elems(h)| + 1) * (|Elems(h)| + 1)
  {
    r := h.root;
    ghost var c, t := Top, h.tree;
    steps := 0;
    SearchStart(h, key);
    hide Searching, WAVL;
    assert r == Root(t);
    while r != null
      invariant Searching(h, c, t, key) && r == Root(t)
      invariant steps + Height(t) <= Height(h.tree)
      decreases t
    {
      SearchDown(h, c, t, key);
      steps := steps + 1;
      if key < r.key {
        r, c, t := r.left, Down(c, t, Left), t.l;
      } else if key > r.key {
        r, c, t := r.right, Down(c, t, Right), t.r;
      } else {
        SearchHit(h, c, t, key);
        LevelsBound(h.tree, steps);
        return;
      }
    }
    SearchMiss(h, c, key);
    LevelsBound(h.tree, steps);
  }

  /** The node that a search has hit is the first whose key is not smaller. */
  lemma FirstIsHit(h: Head, c: Ctx<Node>, t: Tree<Node>, key: int)
    requires Searching(h, c, t, key) && t.Bin? && t.n.key == key
    ensures t.n in Elems(h) && forall n <- Elems(h) :: key <= n.key ==> t.n.key <= n.key
  {
    PlugInorder(c, t);
  }

  /** After a miss, the first element of what is behind the empty slot is. */
  lemma FirstIsAfter(h: Head, c: Ctx<Node>, key: int)
    requires Searching(h, c, Nil, key)
    ensures After(c) != [] ==> After(c)[0] in Elems(h) && key <= After(c)[0].key
    ensures After(c) != [] ==> forall n <- Elems(h) :: key <= n.key ==> After(c)[0].key <= n.key
    ensures After(c) == [] ==> forall n <- Elems(h) :: n.key < key
  {
    SearchMiss(h, c, key);
    if After(c) != [] {
      assert After(c) == [After(c)[0]] + After(c)[1..];
      assert Elems(h) == Before(c) + [After(c)[0]] + After(c)[1..];
      OrderedAround(Before(c), After(c)[0], After(c)[1..]);
    }
  }

  /** RB_NFIND: the first element whose key is at least `key`. `steps` counts the nodes passed. */
  method NFind(h: Head, key: int) returns (r: Node?, ghost steps: nat)
    requires Valid(h)
    ensures r != null ==> r in Elems(h) && key <= r.key && forall n <- Elems(h) :: key <= n.key ==> r.key <= n.key
    ensures r == null ==> forall n <- Elems(h) :: n.key < key
    ensures Pow2(steps) <= (|Elems(h)| + 1) * (|Elems(h)| + 1)
  {
    var tmp := h.root;
    r, steps := null, 0;
    ghost var c, t := Top, h.tree;
    SearchStart(h, key);
    hide Searching, WAVL, Ordered, Below, Above;
    assert tmp == Root(t);
    while tmp != null
      invariant Searching(h, c, t, key) && tmp == Root(t)
      invariant if r == null then After(c) == [] else After(c) != [] && After(c)[0] == r
      invariant steps + Height(t) <= Height(h.tree)
      decreases t
    {
      SearchDown(h, c, t, key);
      steps := steps + 1;
      if key < tmp.key {
        r := tmp;
        tmp, c, t := tmp.left, Down(c, t, Left), t.l;
      } else if key > tmp.key {
        tmp, c, t := tmp.right, Down(c, t, Right), t.r;
      } else {
        FirstIsHit(h, c, t, key);
        LevelsBound(h.tree, steps);
        r := tmp;
        return;
      }
    }
    LevelsBound(h.tree, steps);
    FirstIsAfter(h, c, key);
  }

  /** RB_MINMAX: the first (`d == Left`) or last element. */
  method MinMax(h: Head, d: Dir) returns (r: Node?)
    requires Valid(h)
    ensures r == null <==> Elems(h) == []
    ensures r != null && d == Left ==> Elems(h)[0] == r
    ensures r != null && d == Right ==> Elems(h)[|Elems(h)| - 1] == r
  {
    var tmp := h.root;
    r := null;
    ghost var c, t := Top, h.tree;
    while tmp != null
      invariant Plug(c, t) == h.tree && Hangs(Snap(Nodes(h.tree)), h.root, c, t) && tmp == Root(t) && r == Parent(c)
      invariant if d == Left then Before(c) == [] else After(c) == []
      invariant c.Hole? ==> c.dir == d
      decreases t
    {
      r := tmp;
      Inner(Snap(Nodes(h.tree)), t, Parent(c), d);
      DownPlug(Snap(Nodes(h.tree)), h.root, c, t, d);
      tmp := if d == Left then tmp.left else tmp.right;
      c, t := Down(c, t, d), t.Child(d);
    }
    PlugInorder(c, t);
  }

  /** The subtree of the whole tree at the node `n`. */
  lemma {:induction false} Locate(c: Ctx<Node>, t: Tree<Node>, n: Node) returns (k: Ctx<Node>, u: Tree<Node>)
    requires n in Nodes(t)
    ensures u.Bin? && u.n == n && Plug(k, u) == Plug(c, t)
    decreases t
  {
    if t.n == n {
      return c, t;
    } else if n in Nodes(t.l) {
      k, u := Locate(Down(c, t, Left), t.l, n);
    } else {
      k, u := Locate(Down(c, t, Right), t.r, n);
    }
  }

  /** The node `n` is element number `i`. */
  ghost predicate At(s: seq<Node>, i: nat, n: Node)
  {
    i < |s| && s[i] == n
  }

  lemma HangsRoot(m: Mem, root: Node?, c: Ctx<Node>, t: Tree<Node>)
    requires Hangs(m, root, c, t) && t.Bin?
    ensures t.n in m && m[t.n].left == Root(t.l) && m[t.n].right == Root(t.r) && m[t.n].up == Parent(c)
  {
  }

  /** The element of `s` at its end on side `d`. */
  function End<T>(s: seq<T>, d: Dir): T
    requires s != []
  {
    if d == Left then s[0] else s[|s| - 1]
  }

  /** The descent of RB_NEXT (`d == Left`) or RB_PREV: the first or the last node below `elm`. */
  method DescendTo(h: Head, elm: Node, d: Dir, ghost c0: Ctx<Node>, ghost t0: Tree<Node>) returns (r: Node)
    requires Hangs(Snap(Nodes(h.tree)), h.root, c0, t0) && t0.Bin? && t0.n == elm
    ensures End(Inorder(t0), d) == r
  {
    ghost var m := Snap(Nodes(h.tree));
    r := elm;
    ghost var c, t := c0, t0;
    HangsRoot(m, h.root, c, t);
    hide Hangs;
    while r.Link(d) != null
      invariant Hangs(m, h.root, c, t) && t.Bin? && r == t.n && r in m && r.left == Root(t.l) && r.right == Root(t.r)
      invariant End(Inorder(t), d) == End(Inorder(t0), d)
      decreases t
    {
      DownPlug(m, h.root, c, t, d);
      c, t, r := Down(c, t, d), t.Child(d), r.Link(d);
      HangsRoot(m, h.root, c, t);
    }
  }

  /** What lies beyond the hole on side `d`, nearest to it first. */
  function Beyond(c: Ctx<Node>, d: Dir): Node?
  {
    if d == Right then (if After(c) == [] then null else After(c)[0])
    else (if Before(c) == [] then null else Before(c)[|Before(c)| - 1])
  }

  /** The climb of RB_NEXT (`d == Right`) or RB_PREV from a node without a child on side `d`. */
  method ClimbFrom(h: Head, elm: Node, d: Dir, ghost c0: Ctx<Node>, ghost t0: Tree<Node>) returns (r: Node?)
    requires Hangs(Snap(Nodes(h.tree)), h.root, c0, t0) && t0.Bin? && t0.n == elm
    ensures r == Beyond(c0, d)
  {
    ghost var m := Snap(Nodes(h.tree));
    var e := elm;
    ghost var c, t := c0, t0;
    HangsRoot(m, h.root, c, t);
    hide Hangs;
    while e.up != null && e == e.up.Link(d)
      invariant Hangs(m, h.root, c, t) && t.Bin? && e == t.n && Beyond(c, d) == Beyond(c0, d)
      invariant e in m && e.up == Parent(c) && (c.Hole? ==> c.n in m)
      decreases c
    {
      HangsParent(m, h.root, c, t);
      HangsUp(m, h.root, c, t);
      c, t := c.up, Mk(c.n, c.dir, t, c.sib, c.redHole, c.redSib);
      e := e.up;
      HangsRoot(m, h.root, c, t);
      if c.Hole? { HangsParent(m, h.root, c, t); }
    }
    if c.Hole? { HangsParent(m, h.root, c, t); }
    r := e.up;
  }

  /** The position of an element of an ordered sequence is unique. */
  lemma SamePosition(e: seq<Node>, a: seq<Node>, n: Node, b: seq<Node>, i: nat)
    requires e == a + [n] + b && Ordered(e) && At(e, i, n)
    ensures i == |a| && e[..i] == a && e[i + 1..] == b && e[..i + 1] == a + [n] && e[i..] == [n] + b
  {
    assert e[|a|] == n;
  }

  /** RB_NEXT (`d == Right`) and RB_PREV: the element after, or before, `elm`, which is element `i`. */
  method Neighbour(h: Head, elm: Node, d: Dir, ghost i: nat) returns (r: Node?)
    requires Valid(h) && At(Elems(h), i, elm)
    ensures d == Right ==> r == if i + 1 < |Elems(h)| then Elems(h)[i + 1] else null
    ensures d == Left ==> r == if i > 0 then Elems(h)[i - 1] else null
  {
    ghost var m := Snap(Nodes(h.tree));
    InorderNodes(h.tree);
    ghost var c, t := Locate(Top, h.tree, elm);
    HangsPlug(m, h.root, c, t);
    OrderAt(c, t);
    SamePosition(Elems(h), Before(c) + Inorder(t.l), elm, Inorder(t.r) + After(c), i);
    hide Hangs, Ordered, Plug, WAVL;
    HangsRoot(m, h.root, c, t);
    if elm.Link(d) != null {
      DownPlug(m, h.root, c, t, d);
      r := DescendTo(h, elm.Link(d), d.Other(), Down(c, t, d), t.Child(d));
    } else {
      r := ClimbFrom(h, elm, d, c, t);
    }
  }
}
