/**
 The splay tree operations of tree.h, in place.
 */
module SplayTree {
  import opened Basics
  import opened SplayShape

  /** A head, and the memory in which its nodes are. */
  class Head {
    var root: Addr
    var left: Links
    var right: Links
    var key: map<Addr, int>
    ghost var tree: Tree

    ghost predicate Valid()
      reads this
    {
      Shape(left, right, tree, root) && Simple(tree) && Sorted(key, Inorder(tree))
    }

    constructor ()
      ensures Valid() && tree == Leaf
    {
      root, left, right, key, tree := NIL, map[], map[], map[], Leaf;
    }

    /** One turn of the loop of SPLAY when `k` is smaller than the key at the root. */
    method TurnSmaller(k: int, lp: Addr, rp: Addr, ghost a: Spine, ghost t: Tree, ghost b: Spine, ghost all: seq<Addr>)
      returns (stop: bool, rp': Addr, ghost t': Tree, ghost b': Spine)
      requires Mid(key, left, right, root, lp, rp, a, t, b, k, all) && root in key && k < key[root]
      modifies `root, `left, `right
      ensures Mid(key, left, right, root, lp, rp', a, t', b', k, all) && Wrote(old(left), old(right), left, right, all)
      ensures if stop then Reached(key, t', k) else Size(t') < Size(t)
    {
      hide Mid, Wrote, Size, Sorted, AllInorder, AllBelow, AllAbove, Inorder;
      stop, rp', t', b' := false, rp, t, b;
      WroteRefl(left, right, all);
      MidRoot(key, left, right, root, lp, rp, a, t, b, k, all);
      var tmp := left[root];
      if tmp == NIL {
        stop := true;
        return;
      }
      if k < key[tmp] {
        MidRotate(key, left, right, root, lp, rp, a, t, b, k, all);
        WroteLeft(old(left), old(right), left, right, all, root, right[tmp]);
        left := left[root := right[tmp]];
        WroteRight(old(left), old(right), left, right, all, tmp, root);
        right := right[tmp := root];
        root := tmp;
        t' := RotatedRight(t);
        MidRoot(key, left, right, root, lp, rp, a, t', b, k, all);
        if left[root] == NIL {
          stop := true;
          return;
        }
      }
      MidLink(key, left, right, root, lp, rp, a, t', b, k, all);
      WroteLeft(old(left), old(right), left, right, all, rp, root);
      left := left[rp := root];
      rp' := root;
      root := left[root];
      b' := Push(b, t'.n, t'.r);
      t' := t'.l;
    }

    /** One turn of the loop of SPLAY when `k` is larger than the key at the root. */
    method TurnLarger(k: int, lp: Addr, rp: Addr, ghost a: Spine, ghost t: Tree, ghost b: Spine, ghost all: seq<Addr>)
      returns (stop: bool, lp': Addr, ghost t': Tree, ghost a': Spine)
      requires Mid(key, left, right, root, lp, rp, a, t, b, k, all) && root in key && k > key[root]
      modifies `root, `left, `right
      ensures Mid(key, left, right, root, lp', rp, a', t', b, k, all) && Wrote(old(left), old(right), left, right, all)
      ensures if stop then Reached(key, t', k) else Size(t') < Size(t)
    {
      hide Mid, Wrote, Size, Sorted, AllInorder, AllBelow, AllAbove, Inorder;
      stop, lp', t', a' := false, lp, t, a;
      WroteRefl(left, right, all);
      MidRoot(key, left, right, root, lp, rp, a, t, b, k, all);
      var tmp := right[root];
      if tmp == NIL {
        stop := true;
        return;
      }
      if k > key[tmp] {
        MidRotate(key, left, right, root, lp, rp, a, t, b, k, all);
        WroteRight(old(left), old(right), left, right, all, root, left[tmp]);
        right := right[root := left[tmp]];
        WroteLeft(old(left), old(right), left, right, all, tmp, root);
        left := left[tmp := root];
        root := tmp;
        t' := RotatedLeft(t);
        MidRoot(key, left, right, root, lp, rp, a, t', b, k, all);
        if right[root] == NIL {
          stop := true;
          return;
        }
      }
      MidLink(key, left, right, root, lp, rp, a, t', b, k, all);
      WroteRight(old(left), old(right), left, right, all, lp, root);
      right := right[lp := root];
      lp' := root;
      root := right[root];
      a' := Push(a, t'.n, t'.l);
      t' := t'.r;
    }

    /** SPLAY_ASSEMBLE */
    method AssembleParts(lp: Addr, rp: Addr, ghost a: Spine, ghost t: Tree, ghost b: Spine, ghost k: int, ghost all: seq<Addr>)
      requires Mid(key, left, right, root, lp, rp, a, t, b, k, all) && Reached(key, t, k)
      modifies `left, `right, `tree
      ensures Valid() && tree == Assembled(a, t, b) && Inorder(tree) == all && root == tree.n
      ensures AllBelow(key, Inorder(tree.l), k) && AllAbove(key, Inorder(tree.r), k)
      ensures Wrote(old(left), old(right), left, right, all)
    {
      hide Wrote, Size, Sorted, AllInorder, AllBelow, AllAbove, Inorder;
      MidRoot(key, left, right, root, lp, rp, a, t, b, k, all);
      MidEnd(key, left, right, root, lp, rp, a, t, b, k, all);
      Assemble(left, right, root, lp, rp, a, t, b);
      AssembleFacts(key, a, t, b, all, left, right, root, lp, rp, k);
      hide *;
      AssembleWrote(left, right, root, lp, rp, all);
      right := right[lp := left[root]];
      left := left[rp := right[root]];
      left := left[root := right[DUMMY]];
      right := right[root := left[DUMMY]];
      tree := Assembled(a, t, b);
      ValidIntro(this);
    }

    /** SPLAY: brings `k` to the root, or else the next smaller or the next larger key. */
    method Splay(k: int)
      requires Valid() && tree.Br?
      modifies `root, `left, `right, `tree
      ensures Valid() && Inorder(tree) == Inorder(old(tree)) && tree.Br? && root == tree.n
      ensures AllBelow(key, Inorder(tree.l), k) && AllAbove(key, Inorder(tree.r), k)
      ensures Wrote(old(left), old(right), left, right, Inorder(old(tree)))
    {
      ghost var all := Inorder(tree);
      MidStart(key, left, right, root, tree, k);
      hide Mid, Wrote, Size, Sorted, AllInorder, AllBelow, AllAbove, Inorder, Shape, Simple;
      WroteRefl(left, right, all);
      WroteLeft(left, right, left, right, all, DUMMY, NIL);
      left := left[DUMMY := NIL];
      WroteRight(old(left), old(right), left, right, all, DUMMY, NIL);
      right := right[DUMMY := NIL];
      var lp, rp := DUMMY, DUMMY;
      ghost var a, t, b := Top, tree, Top;
      MidRoot(key, left, right, root, lp, rp, a, t, b, k, all);
      while key[root] != k
        invariant Mid(key, left, right, root, lp, rp, a, t, b, k, all) && root in key && root == t.n && t.Br?
        invariant Wrote(old(left), old(right), left, right, all)
        decreases Size(t)
      {
        var stop;
        ghost var left0, right0 := left, right;
        if k < key[root] {
          stop, rp, t, b := TurnSmaller(k, lp, rp, a, t, b, all);
        } else {
          stop, lp, t, a := TurnLarger(k, lp, rp, a, t, b, all);
        }
        WroteTrans(old(left), old(right), left0, right0, left, right, all);
        MidRoot(key, left, right, root, lp, rp, a, t, b, k, all);
        if stop {
          break;
        }
      }
      ghost var left0, right0 := left, right;
      AssembleParts(lp, rp, a, t, b, k, all);
      WroteTrans(old(left), old(right), left0, right0, left, right, all);
    }

    /** One turn of the loop of SPLAY_MINMAX towards the minimum; `k` is smaller than all keys. */
    method TurnMin(lp: Addr, rp: Addr, ghost a: Spine, ghost t: Tree, ghost b: Spine, ghost k: int, ghost all: seq<Addr>)
      returns (stop: bool, rp': Addr, ghost t': Tree, ghost b': Spine)
      requires Mid(key, left, right, root, lp, rp, a, t, b, k, all) && AllAbove(key, all, k)
      modifies `root, `left, `right
      ensures Mid(key, left, right, root, lp, rp', a, t', b', k, all) && Wrote(old(left), old(right), left, right, all)
      ensures if stop then Reached(key, t', k) else Size(t') < Size(t)
    {
      hide Mid, Wrote, Size, Sorted, AllInorder, AllBelow, Inorder;
      stop, rp', t', b' := true, rp, t, b;
      WroteRefl(left, right, all);
      MidRoot(key, left, right, root, lp, rp, a, t, b, k, all);
      var tmp := left[root];
      if tmp == NIL {
        return;
      }
      MidRotate(key, left, right, root, lp, rp, a, t, b, k, all);
      WroteLeft(old(left), old(right), left, right, all, root, right[tmp]);
      left := left[root := right[tmp]];
      WroteRight(old(left), old(right), left, right, all, tmp, root);
      right := right[tmp := root];
      root := tmp;
      t' := RotatedRight(t);
      MidRoot(key, left, right, root, lp, rp, a, t', b, k, all);
      if left[root] == NIL {
        return;
      }
      MidLink(key, left, right, root, lp, rp, a, t', b, k, all);
      WroteLeft(old(left), old(right), left, right, all, rp, root);
      left := left[rp := root];
      rp' := root;
      root := left[root];
      stop, b', t' := false, Push(b, t'.n, t'.r), t'.l;
    }

    /** One turn of the loop of SPLAY_MINMAX towards the maximum; `k` is larger than all keys. */
    method TurnMax(lp: Addr, rp: Addr, ghost a: Spine, ghost t: Tree, ghost b: Spine, ghost k: int, ghost all: seq<Addr>)
      returns (stop: bool, lp': Addr, ghost t': Tree, ghost a': Spine)
      requires Mid(key, left, right, root, lp, rp, a, t, b, k, all) && AllBelow(key, all, k)
      modifies `root, `left, `right
      ensures Mid(key, left, right, root, lp', rp, a', t', b, k, all) && Wrote(old(left), old(right), left, right, all)
      ensures if stop then Reached(key, t', k) else Size(t') < Size(t)
    {
      hide Mid, Wrote, Size, Sorted, AllInorder, AllAbove, Inorder;
      stop, lp', t', a' := true, lp, t, a;
      WroteRefl(left, right, all);
      MidRoot(key, left, right, root, lp, rp, a, t, b, k, all);
      var tmp := right[root];
      if tmp == NIL {
        return;
      }
      MidRotate(key, left, right, root, lp, rp, a, t, b, k, all);
      WroteRight(old(left), old(right), left, right, all, root, left[tmp]);
      right := right[root := left[tmp]];
      WroteLeft(old(left), old(right), left, right, all, tmp, root);
      left := left[tmp := root];
      root := tmp;
      t' := RotatedLeft(t);
      MidRoot(key, left, right, root, lp, rp, a, t', b, k, all);
      if right[root] == NIL {
        return;
      }
      MidLink(key, left, right, root, lp, rp, a, t', b, k, all);
      WroteRight(old(left), old(right), left, right, all, lp, root);
      right := right[lp := root];
      lp' := root;
      root := right[root];
      stop, a', t' := false, Push(a, t'.n, t'.l), t'.r;
    }

    /** SPLAY_MINMAX: brings the minimum, if `comp` is negative, or the maximum to the root. */
    method SplayMinMax(comp: int)
      requires Valid() && tree.Br? && comp != 0
      modifies `root, `left, `right, `tree
      ensures Valid() && Inorder(tree) == Inorder(old(tree)) && tree.Br? && root == tree.n
      ensures root == if comp < 0 then Inorder(tree)[0] else Inorder(tree)[|Inorder(tree)| - 1]
    {
      hide Mid, Wrote, Reached, Size, Sorted, AllInorder, AllBelow, AllAbove, Inorder, Shape, Simple, Beyond;
      ghost var all := Inorder(tree);
      InorderParts(tree);
      BeyondAll(key, all, comp);
      ghost var k := Beyond(key, all, comp);
      MidStart(key, left, right, root, tree, k);
      left, right := left[DUMMY := NIL], right[DUMMY := NIL];
      var lp, rp := DUMMY, DUMMY;
      ghost var a, t, b := Top, tree, Top;
      var stop := false;
      while !stop
        invariant Mid(key, left, right, root, lp, rp, a, t, b, k, all) && (stop ==> Reached(key, t, k))
        decreases !stop, Size(t)
      {
        if comp < 0 {
          stop, rp, t, b := TurnMin(lp, rp, a, t, b, k, all);
        } else {
          stop, lp, t, a := TurnMax(lp, rp, a, t, b, k, all);
        }
      }
      AssembleParts(lp, rp, a, t, b, k, all);
      ExtremeRoot(key, tree, comp, k);
    }

    /** SPLAY_MIN_MAX */
    method MinMax(val: int) returns (n: Option<Addr>)
      requires Valid() && tree.Br? && val != 0
      modifies `root, `left, `right, `tree
      ensures Valid() && Inorder(tree) == old(Inorder(tree)) && Inorder(tree) != []
      ensures n == Some(if val < 0 then Inorder(tree)[0] else Inorder(tree)[|Inorder(tree)| - 1])
    {
      SplayMinMax(val);
      InorderParts(tree);
      return Some(root);
    }

    /** SPLAY_FIND */
    method Find(k: int) returns (n: Option<Addr>)
      requires Valid()
      modifies `root, `left, `right, `tree
      ensures Valid() && Inorder(tree) == old(Inorder(tree))
      ensures n.Some? ==> n.value in Inorder(tree) && n.value in key && key[n.value] == k && root == n.value
      ensures n.None? ==> forall x <- Inorder(tree) :: x in key && key[x] != k
    {
      if root == NIL {
        EmptyTree(left, right, tree, root);
        return None;
      }
      NonEmptyTree(left, right, tree, root);
      Splay(k);
      RootKey(key, tree, k);
      return if key[root] == k then Some(root) else None;
    }

    /** SPLAY_INSERT: returns the node that has the key already, if there is one. */
    method Insert(elm: Addr, k: int) returns (old_: Option<Addr>)
      requires Valid() && elm > DUMMY && elm !in Inorder(tree)
      modifies this
      ensures Valid()
      ensures old_.Some? ==>
        && Inorder(tree) == old(Inorder(tree)) && old_.value in Inorder(tree)
        && old_.value in old(key) && old(key)[old_.value] == k && key == old(key)
      ensures old_.None? ==>
        && key == old(key)[elm := k] && (forall x <- old(Inorder(tree)) :: x in old(key) && old(key)[x] != k)
        && exists i :: 0 <= i <= |old(Inorder(tree))| && Inorder(tree) == old(Inorder(tree))[..i] + [elm] + old(Inorder(tree))[i..]
    {
      hide Sorted, Shape, Simple, Nodes, AllBelow, AllAbove, Wrote, Inorder;
      if root == NIL {
        EmptyTree(left, right, tree, root);
        SingleTree(left, right, key, elm, k);
        left, right := left[elm := NIL], right[elm := NIL];
        key := key[elm := k];
        tree, root := Br(Leaf, elm, Leaf), elm;
        assert Inorder(tree) == old(Inorder(tree))[..0] + [elm] + old(Inorder(tree))[0..];
        return None;
      }
      NonEmptyTree(left, right, tree, root);
      Splay(k);
      RootKey(key, tree, k);
      if key[root] == k {
        return Some(root);
      }
      SplayedLinks(left, right, tree, root);
      InsertShape(left, right, tree, elm);
      InsertOrder(key, tree, elm, k);
      if k < key[root] {
        left := left[elm := left[root]];
        right := right[elm := root];
        left := left[root := NIL];
        tree := Br(tree.l, elm, Br(Leaf, tree.n, tree.r));
      } else {
        right := right[elm := right[root]];
        left := left[elm := root];
        right := right[root := NIL];
        tree := Br(Br(tree.l, tree.n, Leaf), elm, tree.r);
      }
      key := key[elm := k];
      root := elm;
      return None;
    }

    /** SPLAY_REMOVE */
    method Remove(k: int) returns (removed: bool)
      requires Valid()
      modifies `root, `left, `right, `tree
      ensures Valid()
      ensures removed <==> exists x :: x in old(Inorder(tree)) && x in key && key[x] == k
      ensures !removed ==> Inorder(tree) == old(Inorder(tree))
      ensures removed ==>
        exists i :: 0 <= i < |old(Inorder(tree))| && old(Inorder(tree))[i] in key && key[old(Inorder(tree))[i]] == k
          && Inorder(tree) == old(Inorder(tree))[..i] + old(Inorder(tree))[i + 1..]
    {
      hide Sorted, Shape, Simple, Nodes, AllBelow, AllAbove, Wrote, Inorder;
      if root == NIL {
        EmptyTree(left, right, tree, root);
        InorderParts(tree);
        return false;
      }
      NonEmptyTree(left, right, tree, root);
      Splay(k);
      RootKey(key, tree, k);
      if key[root] != k {
        return false;
      }
      SplayedLinks(left, right, tree, root);
      RemoveOrder(key, tree);
      ghost var l, r, found := tree.l, tree.r, tree;
      InorderParts(l);
      if left[root] == NIL {
        root := right[root];
        tree := r;
        assert Inorder(l) + Inorder(r) == Inorder(r);
      } else {
        var tmp := right[root];
        root := left[root];
        tree := l;
        NonEmptyTree(left, right, tree, root);
        ghost var left0, right0 := left, right;
        Splay(k);
        AllSmaller(key, l, tree, k);
        SplayedLinks(left, right, tree, root);
        JoinShape(left0, right0, left, right, l, tree, r, tmp);
        right := right[root := tmp];
        JoinOrder(tree, r);
        tree := Br(tree.l, tree.n, r);
      }
      RemovedRoot(key, old(Inorder(tree)), found, Inorder(tree));
      return true;
    }
  }

  lemma ValidIntro(h: Head)
    requires Shape(h.left, h.right, h.tree, h.root) && Simple(h.tree) && Sorted(h.key, Inorder(h.tree))
    ensures h.Valid()
  {
  }

  /** The stores of SPLAY_ASSEMBLE only go to nodes of the tree and to the local variable of SPLAY. */
  lemma AssembleWrote(left: Links, right: Links, root: Addr, lp: Addr, rp: Addr, all: seq<Addr>)
    requires root in left && root in right && root in all && (lp in all || lp == DUMMY) && (rp in all || rp == DUMMY)
    requires var right1 := right[lp := left[root]];
             var left1 := left[rp := right1[root]];
             DUMMY in left1 && DUMMY in right1
    ensures var right1 := right[lp := left[root]];
            var left1 := left[rp := right1[root]];
            var left2 := left1[root := right1[DUMMY]];
            Wrote(left, right, left2, right1[root := left2[DUMMY]], all)
  {
  }

  lemma AssembleFacts(key: map<Addr, int>, a: Spine, t: Tree, b: Spine, all: seq<Addr>,
                      left: Links, right: Links, root: Addr, lp: Addr, rp: Addr, k: int)
    requires Mid(key, left, right, root, lp, rp, a, t, b, k, all)
    requires Inorder(Assembled(a, t, b)) == AllInorder(a, t, b)
    ensures Sorted(key, Inorder(Assembled(a, t, b))) && Inorder(Assembled(a, t, b)) == all && Assembled(a, t, b).n == t.n == root
  {
  }

  /** The links of a tree's root, once more after it has been splayed. */
  lemma SplayedLinks(left: Links, right: Links, t: Tree, root: Addr)
    requires Shape(left, right, t, root) && Simple(t) && t.Br?
    ensures root in left && root in right && Shape(left, right, t.l, left[root]) && Shape(left, right, t.r, right[root])
    ensures left[root] == NIL <==> t.l.Leaf?
    ensures Simple(t.l) && Simple(t.r) && Nodes(t.l) !! Nodes(t.r)
  {
    AboveTree(t);
    assert t.l.Br? ==> t.l.n in Nodes(t.l);
  }

  lemma EmptyTree(left: Links, right: Links, t: Tree, root: Addr)
    requires Shape(left, right, t, root) && Simple(t) && root == NIL
    ensures t == Leaf
  {
  }

  lemma NonEmptyTree(left: Links, right: Links, t: Tree, root: Addr)
    requires Shape(left, right, t, root) && root != NIL
    ensures t.Br? && t.n == root
  {
  }

  /** After splaying for `k`, only the root can have that key. */
  lemma RootKey(key: map<Addr, int>, t: Tree, k: int)
    requires t.Br? && Sorted(key, Inorder(t)) && AllBelow(key, Inorder(t.l), k) && AllAbove(key, Inorder(t.r), k)
    ensures t.n in key && t.n in Inorder(t) && forall x <- Inorder(t) :: x in key && (x != t.n ==> key[x] != k)
  {
    SortedSides(key, Inorder(t.l), t.n, Inorder(t.r));
  }

  /** A key beyond one end of a tree. */
  ghost function Beyond(key: map<Addr, int>, all: seq<Addr>, comp: int): int
    requires all != [] && all[0] in key && all[|all| - 1] in key
  {
    if comp < 0 then key[all[0]] - 1 else key[all[|all| - 1]] + 1
  }

  lemma BeyondAll(key: map<Addr, int>, all: seq<Addr>, comp: int)
    requires Sorted(key, all) && all != []
    ensures all[0] in key && all[|all| - 1] in key
    ensures comp < 0 ==> AllAbove(key, all, Beyond(key, all, comp))
    ensures comp >= 0 ==> AllBelow(key, all, Beyond(key, all, comp))
  {
    forall n <- all ensures key[all[0]] <= key[n] <= key[all[|all| - 1]] {
      var i :| 0 <= i < |all| && all[i] == n;
      assert i > 0 ==> key[all[0]] < key[all[i]];
      assert i < |all| - 1 ==> key[all[i]] < key[all[|all| - 1]];
    }
  }

  lemma ExtremeRoot(key: map<Addr, int>, t: Tree, comp: int, k: int)
    requires t.Br? && (if comp < 0 then AllAbove(key, Inorder(t), k) else AllBelow(key, Inorder(t), k))
    requires AllBelow(key, Inorder(t.l), k) && AllAbove(key, Inorder(t.r), k)
    ensures t.n == if comp < 0 then Inorder(t)[0] else Inorder(t)[|Inorder(t)| - 1]
  {
    assert forall n <- Inorder(t.l) :: n in Inorder(t);
    assert forall n <- Inorder(t.r) :: n in Inorder(t);
    FirstIn(Inorder(t.l));
    FirstIn(Inorder(t.r));
  }

  lemma FirstIn(s: seq<Addr>)
    ensures s == [] || s[0] in s
  {
  }

  lemma SingleTree(left: Links, right: Links, key: map<Addr, int>, elm: Addr, k: int)
    requires elm > DUMMY
    ensures Shape(left[elm := NIL], right[elm := NIL], Br(Leaf, elm, Leaf), elm) && Simple(Br(Leaf, elm, Leaf))
    ensures Inorder(Br(Leaf, elm, Leaf)) == [elm] && Inorder(Leaf) == [] && Sorted(key[elm := k], [elm])
  {
  }

  lemma JoinOrder(t: Tree, r: Tree)
    requires t.Br? && t.r == Leaf
    ensures Inorder(Br(t.l, t.n, r)) == Inorder(t) + Inorder(r)
  {
  }

  lemma InsertShape(left: Links, right: Links, t: Tree, elm: Addr)
    requires t.Br? && Shape(left, right, t, t.n) && Simple(t) && elm > DUMMY && elm !in Inorder(t)
    ensures t.n in left && t.n in right
    ensures Simple(Br(t.l, elm, Br(Leaf, t.n, t.r))) && Simple(Br(Br(t.l, t.n, Leaf), elm, t.r))
    ensures Shape(left[elm := left[t.n]][t.n := NIL], right[elm := t.n], Br(t.l, elm, Br(Leaf, t.n, t.r)), elm)
    ensures Shape(left[elm := t.n], right[elm := right[t.n]][t.n := NIL], Br(Br(t.l, t.n, Leaf), elm, t.r), elm)
  {
    InorderNodes(t);
    var left1, right1 := left[elm := left[t.n]][t.n := NIL], right[elm := t.n];
    ShapeFrame(left, right, left1, right1, t.l, left[t.n]);
    ShapeFrame(left, right, left1, right1, t.r, right[t.n]);
    assert Shape(left1, right1, Br(Leaf, t.n, t.r), t.n);
    var left2, right2 := left[elm := t.n], right[elm := right[t.n]][t.n := NIL];
    ShapeFrame(left, right, left2, right2, t.l, left[t.n]);
    ShapeFrame(left, right, left2, right2, t.r, right[t.n]);
    assert Shape(left2, right2, Br(t.l, t.n, Leaf), t.n);
  }

  /** A new key between what is smaller and what is larger. */
  lemma InsertSorted(key: map<Addr, int>, s: seq<Addr>, u: seq<Addr>, elm: Addr, k: int)
    requires Sorted(key, s + u) && AllBelow(key, s, k) && AllAbove(key, u, k) && elm !in s && elm !in u
    ensures Sorted(key[elm := k], s + [elm] + u)
  {
    var w, key' := s + [elm] + u, key[elm := k];
    forall i, j | 0 <= i < j < |w| ensures key'[w[i]] < key'[w[j]] {
      assert i < |s| ==> w[i] == s[i] == (s + u)[i];
      assert i > |s| ==> w[i] == u[i - |s| - 1] == (s + u)[i - 1];
      assert j < |s| ==> w[j] == s[j] == (s + u)[j];
      assert j > |s| ==> w[j] == u[j - |s| - 1] == (s + u)[j - 1];
    }
  }

  lemma InsertOrder(key: map<Addr, int>, t: Tree, elm: Addr, k: int)
    requires t.Br? && Sorted(key, Inorder(t)) && AllBelow(key, Inorder(t.l), k) && AllAbove(key, Inorder(t.r), k)
    requires t.n in key && key[t.n] != k && elm !in Inorder(t)
    ensures var u := if k < key[t.n] then Br(t.l, elm, Br(Leaf, t.n, t.r)) else Br(Br(t.l, t.n, Leaf), elm, t.r);
            var i := if k < key[t.n] then |Inorder(t.l)| else |Inorder(t.l)| + 1;
            && Sorted(key[elm := k], Inorder(u)) && i <= |Inorder(t)|
            && Inorder(u) == Inorder(t)[..i] + [elm] + Inorder(t)[i..]
  {
    SortedSides(key, Inorder(t.l), t.n, Inorder(t.r));
    var l, r := Inorder(t.l), Inorder(t.r);
    if k < key[t.n] {
      assert Inorder(Br(Leaf, t.n, t.r)) == [t.n] + r;
      assert l + ([t.n] + r) == Inorder(t);
      InsertSorted(key, l, [t.n] + r, elm, k);
      assert Inorder(t)[..|l|] == l && Inorder(t)[|l|..] == [t.n] + r;
    } else {
      assert Inorder(Br(t.l, t.n, Leaf)) == l + [t.n];
      InsertSorted(key, l + [t.n], r, elm, k);
      assert Inorder(t)[..|l| + 1] == l + [t.n] && Inorder(t)[|l| + 1..] == r;
    }
  }

  lemma SortedWithout(key: map<Addr, int>, l: seq<Addr>, n: Addr, r: seq<Addr>)
    requires Sorted(key, l + [n] + r)
    ensures Sorted(key, l + r)
  {
    var w, s := l + r, l + [n] + r;
    forall i | 0 <= i < |w| ensures w[i] == s[if i < |l| then i else i + 1] {
    }
    forall i, j | 0 <= i < j < |w| ensures key[w[i]] < key[w[j]] {
      assert s[if i < |l| then i else i + 1] in key && s[if j < |l| then j else j + 1] in key;
    }
  }

  lemma RemoveOrder(key: map<Addr, int>, t: Tree)
    requires t.Br? && Sorted(key, Inorder(t))
    ensures var l, r, s := Inorder(t.l), Inorder(t.r), Inorder(t);
            && Sorted(key, l) && Sorted(key, r) && Sorted(key, l + r) && s == l + [t.n] + r
            && |l| < |s| && s[|l|] == t.n && l + r == s[..|l|] + s[|l| + 1..]
  {
    InorderParts(t);
    hide Sorted, Inorder;
    SortedSides(key, Inorder(t.l), t.n, Inorder(t.r));
    SortedWithout(key, Inorder(t.l), t.n, Inorder(t.r));
    Slices(Inorder(t.l), t.n, Inorder(t.r));
  }

  lemma Slices(l: seq<Addr>, n: Addr, r: seq<Addr>)
    ensures var s := l + [n] + r; s[..|l|] == l && s[|l|] == n && s[|l| + 1..] == r
  {
  }

  /** Taking out the node at the root, once its key has been splayed to it. */
  lemma RemovedRoot(key: map<Addr, int>, before: seq<Addr>, t: Tree, after: seq<Addr>)
    requires t.Br? && Inorder(t) == before && after == Inorder(t.l) + Inorder(t.r)
    ensures var i := |Inorder(t.l)|; i < |before| && before[i] == t.n && after == before[..i] + before[i + 1..]
  {
    var l, r := Inorder(t.l), Inorder(t.r);
    assert before == l + [t.n] + r;
    assert before[..|l|] == l && before[|l| + 1..] == r;
  }

  lemma InorderParts(t: Tree)
    ensures t.Br? ==> Inorder(t) == Inorder(t.l) + [t.n] + Inorder(t.r)
    ensures t.Leaf? ==> Inorder(t) == []
  {
  }

  /** Splaying what is smaller than `k` leaves nothing on the right of the root. */
  lemma AllSmaller(key: map<Addr, int>, l: Tree, t: Tree, k: int)
    requires AllBelow(key, Inorder(l), k) && Inorder(t) == Inorder(l) && t.Br? && AllAbove(key, Inorder(t.r), k)
    ensures t.r == Leaf
  {
    assert forall n <- Inorder(t.r) :: n in Inorder(t);
    RootIn(t.r);
  }

  lemma RootIn(t: Tree)
    ensures t.Br? ==> t.n in Inorder(t)
  {
  }

  lemma JoinShape(left0: Links, right0: Links, left: Links, right: Links, l: Tree, t: Tree, r: Tree, tmp: Addr)
    requires Wrote(left0, right0, left, right, Inorder(l)) && Shape(left0, right0, r, tmp) && Simple(r) && Simple(l)
    requires Nodes(l) !! Nodes(r) && t.Br? && t.r == Leaf && Simple(t) && Inorder(t) == Inorder(l) && Shape(left, right, t, t.n)
    ensures t.n in right && Simple(Br(t.l, t.n, r)) && Shape(left, right[t.n := tmp], Br(t.l, t.n, r), t.n)
  {
    InorderNodes(l);
    InorderNodes(t);
    AboveTree(r);
    ShapeFrame(left0, right0, left, right, r, tmp);
    ShapeFrame(left, right, left, right[t.n := tmp], r, tmp);
    ShapeFrame(left, right, left, right[t.n := tmp], t.l, left[t.n]);
  }

  lemma WroteRefl(left: Links, right: Links, all: seq<Addr>)
    ensures Wrote(left, right, left, right, all)
  {
  }

  lemma WroteTrans(left0: Links, right0: Links, left1: Links, right1: Links, left2: Links, right2: Links, all: seq<Addr>)
    requires Wrote(left0, right0, left1, right1, all) && Wrote(left1, right1, left2, right2, all)
    ensures Wrote(left0, right0, left2, right2, all)
  {
  }

  lemma MidStart(key: map<Addr, int>, left: Links, right: Links, root: Addr, t: Tree, k: int)
    requires Shape(left, right, t, root) && Simple(t) && Sorted(key, Inorder(t)) && t.Br?
    ensures Mid(key, left[DUMMY := NIL], right[DUMMY := NIL], root, DUMMY, DUMMY, Top, t, Top, k, Inorder(t))
  {
    AboveTree(t);
    ShapeFrame(left, right, left[DUMMY := NIL], right[DUMMY := NIL], t, root);
    assert AllInorder(Top, t, Top) == Inorder(t);
  }
}
