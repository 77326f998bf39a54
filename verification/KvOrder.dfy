/**
 The order of the nodes of a kvcache dictionary, kvcache_node_cmp, and the sequences of nodes that the
 tree and the module lists stand for.
 */
module KvOrder {
  import opened Basics

  /** A key is a string without NUL; a module is known by its address, 0 for the shared dictionaries. */
  type Key = seq<nat>
  type Mod = nat
  type Id = nat

  const SHARED: Mod := 0

  datatype Entry = Entry(key: Key, mod: Mod)

  /** strcmp, of which only the sign counts. */
  function StrCmp(a: Key, b: Key): int
  {
    if a == [] && b == [] then 0
    else if a == [] then -1
    else if b == [] then 1
    else if a[0] != b[0] then a[0] - b[0]
    else StrCmp(a[1..], b[1..])
  }

  function Cmp(a: Entry, b: Entry): int
  {
    var n := StrCmp(a.key, b.key);
    if n != 0 then n else a.mod - b.mod
  }

  lemma {:induction false} StrCmpOrder(a: Key, b: Key)
    ensures StrCmp(a, b) == 0 <==> a == b
    ensures StrCmp(a, b) < 0 <==> StrCmp(b, a) > 0
  {
    if a != [] && b != [] {
      StrCmpOrder(a[1..], b[1..]);
      assert a == [a[0]] + a[1..] && b == [b[0]] + b[1..];
    }
  }

  lemma {:induction false} StrCmpTransitive(a: Key, b: Key, c: Key)
    requires StrCmp(a, b) <= 0 && StrCmp(b, c) <= 0
    ensures StrCmp(a, c) <= 0
    ensures StrCmp(a, b) < 0 || StrCmp(b, c) < 0 ==> StrCmp(a, c) < 0
  {
    if a != [] && b != [] && c != [] {
      if a[0] == b[0] && b[0] == c[0] {
        StrCmpTransitive(a[1..], b[1..], c[1..]);
      }
    }
  }

  /** Two nodes compare as equal exactly if they have the same key and the same module, and the order is total. */
  lemma CmpOrder(a: Entry, b: Entry)
    ensures Cmp(a, b) == 0 <==> a == b
    ensures Cmp(a, b) < 0 <==> Cmp(b, a) > 0
  {
    StrCmpOrder(a.key, b.key);
    StrCmpOrder(b.key, a.key);
  }

  lemma CmpTransitive(a: Entry, b: Entry, c: Entry)
    requires Cmp(a, b) < 0 && Cmp(b, c) < 0
    ensures Cmp(a, c) < 0
  {
    StrCmpOrder(a.key, b.key);
    StrCmpOrder(b.key, c.key);
    StrCmpTransitive(a.key, b.key, c.key);
  }

  // ---------------------------------------------------------------- sequences of nodes

  ghost predicate Sorted(tree: seq<Entry>)
  {
    forall i, j :: 0 <= i < j < |tree| ==> Cmp(tree[i], tree[j]) < 0
  }

  function IndexOf(s: seq<Id>, x: Id): (i: nat)
    requires x in s
    ensures i < |s| && s[i] == x
  {
    if s[0] == x then 0 else 1 + IndexOf(s[1..], x)
  }

  function RemoveAt<T>(s: seq<T>, i: nat): seq<T>
    requires i < |s|
  {
    s[..i] + s[i + 1..]
  }

  function InsertAt<T>(s: seq<T>, i: nat, x: T): seq<T>
    requires i <= |s|
  {
    s[..i] + [x] + s[i..]
  }

  /** Where a new entry goes: after all smaller ones. */
  function Place(tree: seq<Entry>, e: Entry): (i: nat)
    ensures i <= |tree|
  {
    if tree == [] || Cmp(e, tree[0]) < 0 then 0 else 1 + Place(tree[1..], e)
  }

  lemma {:induction false} PlaceSorted(tree: seq<Entry>, e: Entry)
    requires Sorted(tree) && e !in tree
    ensures forall i :: 0 <= i < Place(tree, e) ==> Cmp(tree[i], e) < 0
    ensures forall i :: Place(tree, e) <= i < |tree| ==> Cmp(e, tree[i]) < 0
  {
    if tree != [] {
      CmpOrder(e, tree[0]);
      CmpOrder(tree[0], e);
      if Cmp(e, tree[0]) < 0 {
        forall i | 0 < i < |tree| ensures Cmp(e, tree[i]) < 0 {
          CmpTransitive(e, tree[0], tree[i]);
        }
      } else {
        PlaceSorted(tree[1..], e);
        assert forall i :: 0 < i < |tree| ==> tree[i] == tree[1..][i - 1];
      }
    }
  }

  lemma InsertSorted(tree: seq<Entry>, e: Entry)
    requires Sorted(tree) && e !in tree
    ensures Sorted(InsertAt(tree, Place(tree, e), e))
  {
    PlaceSorted(tree, e);
    var k := Place(tree, e);
    var after := InsertAt(tree, k, e);
    forall i, j | 0 <= i < j < |after| ensures Cmp(after[i], after[j]) < 0 {
      assert after[i] == if i < k then tree[i] else if i == k then e else tree[i - 1];
      assert after[j] == if j < k then tree[j] else if j == k then e else tree[j - 1];
    }
  }

  lemma RemoveSorted(tree: seq<Entry>, k: nat)
    requires Sorted(tree) && k < |tree|
    ensures Sorted(RemoveAt(tree, k))
  {
    var after := RemoveAt(tree, k);
    forall i, j | 0 <= i < j < |after| ensures Cmp(after[i], after[j]) < 0 {
      assert after[i] == tree[if i < k then i else i + 1] && after[j] == tree[if j < k then j else j + 1];
    }
  }

  lemma RemoveDistinct(s: seq<Id>, k: nat)
    requires Distinct(s) && k < |s|
    ensures Distinct(RemoveAt(s, k))
    ensures forall x :: x in RemoveAt(s, k) <==> x in s && x != s[k]
  {
    var after := RemoveAt(s, k);
    assert forall i :: 0 <= i < |after| ==> after[i] == s[if i < k then i else i + 1];
    forall x | x in s && x != s[k] ensures x in after {
      var i :| 0 <= i < |s| && s[i] == x;
      assert after[if i < k then i else i - 1] == x;
    }
  }

  lemma InsertDistinct(s: seq<Id>, k: nat, x: Id)
    requires Distinct(s) && k <= |s| && x !in s
    ensures Distinct(InsertAt(s, k, x))
    ensures forall y :: y in InsertAt(s, k, x) <==> y in s || y == x
  {
    var after := InsertAt(s, k, x);
    assert forall i :: 0 <= i < |after| ==> after[i] == if i < k then s[i] else if i == k then x else s[i - 1];
    forall y | y in s ensures y in after {
      var i :| 0 <= i < |s| && s[i] == y;
      assert after[if i < k then i else i + 1] == y;
    }
    assert after[k] == x;
  }
}
