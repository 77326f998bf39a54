/**
 The representation that LIST and TAILQ of queue.h share: an element knows the slot that points at it,
 which is the first-field of a head or the next-field of the element before.
 */
module QueueShape {
  import opened Basics

  type Elem = nat
  type HeadId = nat

  /** The address of a pointer to an element. */
  datatype Slot = First(head: HeadId) | Next(elem: Elem)

  type Cells = map<Slot, Option<Elem>>
  type Prevs = map<Elem, Slot>
  type Lists = map<HeadId, seq<Elem>>

  /** The slot that points at the element at `k`, or the terminating one. */
  function SlotAt(h: HeadId, s: seq<Elem>, k: nat): Slot
    requires k <= |s|
  {
    if k == 0 then First(h) else Next(s[k - 1])
  }

  /** Slot `k` points at element `k`, and the last slot at nothing. */
  predicate CellOk(at: Cells, h: HeadId, s: seq<Elem>, k: nat)
    requires k <= |s|
  {
    SlotAt(h, s, k) in at && at[SlotAt(h, s, k)] == if k < |s| then Some(s[k]) else None
  }

  predicate PrevOk(prev: Prevs, h: HeadId, s: seq<Elem>, k: nat)
    requires k < |s|
  {
    s[k] in prev && prev[s[k]] == SlotAt(h, s, k)
  }

  /** The memory represents `s` as the list at head `h`. */
  ghost predicate Linked(at: Cells, prev: Prevs, h: HeadId, s: seq<Elem>)
  {
    && Distinct(s)
    && (forall k :: 0 <= k <= |s| ==> CellOk(at, h, s, k))
    && (forall k :: 0 <= k < |s| ==> PrevOk(prev, h, s, k))
  }

  /** Every list is represented, and no element is in two of them. */
  ghost predicate AllLinked(at: Cells, prev: Prevs, lists: Lists)
  {
    && (forall h <- lists :: Linked(at, prev, h, lists[h]))
    && (forall h, g, e | h in lists && g in lists && h != g && e in lists[h] :: e !in lists[g])
  }

  ghost predicate Free(lists: Lists, e: Elem)
  {
    forall h <- lists :: e !in lists[h]
  }

  function Position(s: seq<Elem>, e: Elem): (k: nat)
    requires e in s
    ensures k < |s| && s[k] == e
  {
    if s[0] == e then 0 else 1 + Position(s[1..], e)
  }

  lemma PositionOf(s: seq<Elem>, k: nat)
    requires Distinct(s) && k < |s|
    ensures Position(s, s[k]) == k
  {
  }

  /** Other lists do not see a change to slots and elements that are not theirs. */
  lemma LinkedFrame(at: Cells, prev: Prevs, at': Cells, prev': Prevs, h: HeadId, s: seq<Elem>)
    requires Linked(at, prev, h, s)
    requires forall k :: 0 <= k <= |s| ==> SlotAt(h, s, k) in at ==> SlotAt(h, s, k) in at' && at'[SlotAt(h, s, k)] == at[SlotAt(h, s, k)]
    requires forall e <- s :: e in prev ==> e in prev' && prev'[e] == prev[e]
    ensures Linked(at', prev', h, s)
  {
    forall k | 0 <= k <= |s| ensures CellOk(at', h, s, k) {
      assert CellOk(at, h, s, k);
    }
    forall k | 0 <= k < |s| ensures PrevOk(prev', h, s, k) {
      assert PrevOk(prev, h, s, k);
    }
  }

  // ---------------------------------------------------------------- inserting

  function Inserted(s: seq<Elem>, k: nat, e: Elem): seq<Elem>
    requires k <= |s|
  {
    s[..k] + [e] + s[k..]
  }

  /** The cells after an element has been put where slot `k` pointed at. */
  function InsertCells(at: Cells, h: HeadId, s: seq<Elem>, k: nat, e: Elem): Cells
    requires k <= |s|
  {
    at[Next(e) := if k < |s| then Some(s[k]) else None][SlotAt(h, s, k) := Some(e)]
  }

  function InsertPrevs(prev: Prevs, h: HeadId, s: seq<Elem>, k: nat, e: Elem): Prevs
    requires k <= |s|
  {
    (if k < |s| then prev[s[k] := Next(e)] else prev)[e := SlotAt(h, s, k)]
  }

  lemma InsertedAt(s: seq<Elem>, k: nat, e: Elem)
    requires k <= |s|
    ensures |Inserted(s, k, e)| == |s| + 1
    ensures forall i :: 0 <= i <= |s| ==> Inserted(s, k, e)[i] == if i < k then s[i] else if i == k then e else s[i - 1]
    ensures Distinct(s) && e !in s ==> Distinct(Inserted(s, k, e))
  {
  }

  lemma InsertCell(at: Cells, h: HeadId, s: seq<Elem>, k: nat, e: Elem, i: nat)
    requires k <= |s| && i <= |s| + 1 && e !in s && Distinct(s)
    requires i <= |s| ==> CellOk(at, h, s, i)
    requires i > 0 ==> CellOk(at, h, s, i - 1)
    ensures |Inserted(s, k, e)| == |s| + 1 && CellOk(InsertCells(at, h, s, k, e), h, Inserted(s, k, e), i)
  {
    InsertedAt(s, k, e);
  }

  lemma InsertPrev(prev: Prevs, h: HeadId, s: seq<Elem>, k: nat, e: Elem, i: nat)
    requires k <= |s| && i <= |s| && e !in s && Distinct(s)
    requires i < |s| ==> PrevOk(prev, h, s, i)
    requires i > 0 ==> PrevOk(prev, h, s, i - 1)
    ensures |Inserted(s, k, e)| == |s| + 1 && PrevOk(InsertPrevs(prev, h, s, k, e), h, Inserted(s, k, e), i)
  {
    InsertedAt(s, k, e);
  }

  lemma InsertLinked(at: Cells, prev: Prevs, h: HeadId, s: seq<Elem>, k: nat, e: Elem)
    requires Linked(at, prev, h, s) && k <= |s| && e !in s
    ensures Linked(InsertCells(at, h, s, k, e), InsertPrevs(prev, h, s, k, e), h, Inserted(s, k, e))
  {
    hide CellOk, PrevOk, InsertCells, InsertPrevs;
    var t := Inserted(s, k, e);
    InsertedAt(s, k, e);
    forall i | 0 <= i <= |t| ensures CellOk(InsertCells(at, h, s, k, e), h, t, i) {
      InsertCell(at, h, s, k, e, i);
    }
    forall i | 0 <= i < |t| ensures PrevOk(InsertPrevs(prev, h, s, k, e), h, t, i) {
      InsertPrev(prev, h, s, k, e, i);
    }
  }

  lemma InsertAll(at: Cells, prev: Prevs, lists: Lists, h: HeadId, k: nat, e: Elem)
    requires AllLinked(at, prev, lists) && h in lists && k <= |lists[h]| && Free(lists, e)
    ensures AllLinked(InsertCells(at, h, lists[h], k, e), InsertPrevs(prev, h, lists[h], k, e), lists[h := Inserted(lists[h], k, e)])
  {
    var s := lists[h];
    var at', prev', lists' := InsertCells(at, h, s, k, e), InsertPrevs(prev, h, s, k, e), lists[h := Inserted(s, k, e)];
    InsertLinked(at, prev, h, s, k, e);
    forall x ensures x in Inserted(s, k, e) <==> x in s || x == e {
      assert s == s[..k] + s[k..];
    }
    forall g <- lists | g != h ensures Linked(at', prev', g, lists[g]) {
      OtherList(at, prev, lists, h, g);
      LinkedFrame(at, prev, at', prev', g, lists[g]);
    }
  }

  /** The slots and elements of two lists are different. */
  lemma OtherList(at: Cells, prev: Prevs, lists: Lists, h: HeadId, g: HeadId)
    requires AllLinked(at, prev, lists) && h in lists && g in lists && g != h
    ensures forall i, k :: 0 <= i <= |lists[g]| && 0 <= k <= |lists[h]| ==> SlotAt(g, lists[g], i) != SlotAt(h, lists[h], k)
    ensures forall e <- lists[g] :: e !in lists[h]
    ensures forall e <- lists[g] :: e in prev
  {
    forall i, k | 0 <= i <= |lists[g]| && 0 <= k <= |lists[h]| ensures SlotAt(g, lists[g], i) != SlotAt(h, lists[h], k) {
      if i > 0 && k > 0 {
        assert lists[g][i - 1] in lists[g] && lists[h][k - 1] in lists[h];
      }
    }
    forall e <- lists[g] ensures e in prev {
      assert Linked(at, prev, g, lists[g]) && PrevOk(prev, g, lists[g], Position(lists[g], e));
    }
  }

  // ---------------------------------------------------------------- removing

  function Removed(s: seq<Elem>, k: nat): seq<Elem>
    requires k < |s|
  {
    s[..k] + s[k + 1..]
  }

  function RemoveCells(at: Cells, h: HeadId, s: seq<Elem>, k: nat): Cells
    requires k < |s|
  {
    at[SlotAt(h, s, k) := if k + 1 < |s| then Some(s[k + 1]) else None]
  }

  function RemovePrevs(prev: Prevs, h: HeadId, s: seq<Elem>, k: nat): Prevs
    requires k < |s|
  {
    if k + 1 < |s| then prev[s[k + 1] := SlotAt(h, s, k)] else prev
  }

  lemma RemovedAt(s: seq<Elem>, k: nat)
    requires k < |s|
    ensures |Removed(s, k)| == |s| - 1
    ensures forall i :: 0 <= i < |s| - 1 ==> Removed(s, k)[i] == if i < k then s[i] else s[i + 1]
    ensures Distinct(s) ==> Distinct(Removed(s, k)) && s[k] !in Removed(s, k)
  {
  }

  lemma RemoveCell(at: Cells, h: HeadId, s: seq<Elem>, k: nat, i: nat)
    requires k < |s| && i < |s| && Distinct(s) && CellOk(at, h, s, i) && CellOk(at, h, s, i + 1)
    ensures |Removed(s, k)| == |s| - 1 && CellOk(RemoveCells(at, h, s, k), h, Removed(s, k), i)
  {
    RemovedAt(s, k);
  }

  lemma RemovePrev(prev: Prevs, h: HeadId, s: seq<Elem>, k: nat, i: nat)
    requires k < |s| && i + 1 < |s| && Distinct(s) && PrevOk(prev, h, s, i) && PrevOk(prev, h, s, i + 1)
    ensures |Removed(s, k)| == |s| - 1 && PrevOk(RemovePrevs(prev, h, s, k), h, Removed(s, k), i)
  {
    RemovedAt(s, k);
  }

  lemma RemoveLinked(at: Cells, prev: Prevs, h: HeadId, s: seq<Elem>, k: nat)
    requires Linked(at, prev, h, s) && k < |s|
    ensures Linked(RemoveCells(at, h, s, k), RemovePrevs(prev, h, s, k), h, Removed(s, k))
  {
    hide CellOk, PrevOk, RemoveCells, RemovePrevs;
    var t := Removed(s, k);
    RemovedAt(s, k);
    forall i | 0 <= i <= |t| ensures CellOk(RemoveCells(at, h, s, k), h, t, i) {
      RemoveCell(at, h, s, k, i);
    }
    forall i | 0 <= i < |t| ensures PrevOk(RemovePrevs(prev, h, s, k), h, t, i) {
      RemovePrev(prev, h, s, k, i);
    }
  }

  lemma RemoveAll(at: Cells, prev: Prevs, lists: Lists, h: HeadId, k: nat)
    requires AllLinked(at, prev, lists) && h in lists && k < |lists[h]|
    ensures AllLinked(RemoveCells(at, h, lists[h], k), RemovePrevs(prev, h, lists[h], k), lists[h := Removed(lists[h], k)])
    ensures Free(lists[h := Removed(lists[h], k)], lists[h][k])
  {
    var s := lists[h];
    var at', prev', lists' := RemoveCells(at, h, s, k), RemovePrevs(prev, h, s, k), lists[h := Removed(s, k)];
    RemoveLinked(at, prev, h, s, k);
    assert Linked(at, prev, h, s);
    assert forall x <- Removed(s, k) :: x in s;
    RemovedAt(s, k);
    forall g <- lists | g != h ensures Linked(at', prev', g, lists[g]) {
      OtherList(at, prev, lists, h, g);
      LinkedFrame(at, prev, at', prev', g, lists[g]);
    }
  }

  // ---------------------------------------------------------------- replacing

  function Replaced(s: seq<Elem>, k: nat, e: Elem): seq<Elem>
    requires k < |s|
  {
    s[..k] + [e] + s[k + 1..]
  }

  function ReplaceCells(at: Cells, h: HeadId, s: seq<Elem>, k: nat, e: Elem): Cells
    requires k < |s|
  {
    at[Next(e) := if k + 1 < |s| then Some(s[k + 1]) else None][SlotAt(h, s, k) := Some(e)]
  }

  function ReplacePrevs(prev: Prevs, h: HeadId, s: seq<Elem>, k: nat, e: Elem): Prevs
    requires k < |s|
  {
    (if k + 1 < |s| then prev[s[k + 1] := Next(e)] else prev)[e := SlotAt(h, s, k)]
  }

  /** Replacing an element is removing it, and inserting the other one in its place. */
  lemma ReplaceTwice(at: Cells, prev: Prevs, h: HeadId, s: seq<Elem>, k: nat, e: Elem)
    requires k < |s| && e !in s && Distinct(s)
    ensures |Removed(s, k)| == |s| - 1 && Inserted(Removed(s, k), k, e) == Replaced(s, k, e)
    ensures InsertCells(RemoveCells(at, h, s, k), h, Removed(s, k), k, e) == ReplaceCells(at, h, s, k, e)
    ensures InsertPrevs(RemovePrevs(prev, h, s, k), h, Removed(s, k), k, e) == ReplacePrevs(prev, h, s, k, e)
  {
    RemovedAt(s, k);
    assert SlotAt(h, Removed(s, k), k) == SlotAt(h, s, k);
    assert Removed(s, k)[..k] == s[..k] && Removed(s, k)[k..] == s[k + 1..];
  }

  lemma ReplaceAll(at: Cells, prev: Prevs, lists: Lists, h: HeadId, k: nat, e: Elem)
    requires AllLinked(at, prev, lists) && h in lists && k < |lists[h]| && Free(lists, e)
    ensures AllLinked(ReplaceCells(at, h, lists[h], k, e), ReplacePrevs(prev, h, lists[h], k, e), lists[h := Replaced(lists[h], k, e)])
  {
    var s := lists[h];
    var lists1 := lists[h := Removed(s, k)];
    assert Linked(at, prev, h, s);
    RemoveAll(at, prev, lists, h, k);
    ReplaceTwice(at, prev, h, s, k, e);
    assert forall x <- Removed(s, k) :: x in s;
    hide AllLinked, InsertCells, InsertPrevs, RemoveCells, RemovePrevs, ReplaceCells, ReplacePrevs, Inserted, Removed, Replaced;
    InsertAll(RemoveCells(at, h, s, k), RemovePrevs(prev, h, s, k), lists1, h, k, e);
    assert lists1[h := Inserted(lists1[h], k, e)] == lists[h := Replaced(s, k, e)];
  }

  // ---------------------------------------------------------------- two lists

  function ConcatCells(at: Cells, h: HeadId, s: seq<Elem>, g: HeadId, u: seq<Elem>): Cells
  {
    at[SlotAt(h, s, |s|) := if u == [] then None else Some(u[0])][First(g) := None]
  }

  function ConcatPrevs(prev: Prevs, h: HeadId, s: seq<Elem>, u: seq<Elem>): Prevs
  {
    if u == [] then prev else prev[u[0] := SlotAt(h, s, |s|)]
  }

  lemma ConcatLinked(at: Cells, prev: Prevs, h: HeadId, s: seq<Elem>, g: HeadId, u: seq<Elem>)
    requires Linked(at, prev, h, s) && Linked(at, prev, g, u) && h != g && (forall e <- s :: e !in u)
    ensures Linked(ConcatCells(at, h, s, g, u), ConcatPrevs(prev, h, s, u), h, s + u)
    ensures Linked(ConcatCells(at, h, s, g, u), ConcatPrevs(prev, h, s, u), g, [])
  {
    var at', prev', t := ConcatCells(at, h, s, g, u), ConcatPrevs(prev, h, s, u), s + u;
    assert forall i :: 0 <= i < |s| ==> s[i] in s;
    assert forall i :: 0 <= i < |u| ==> u[i] in u;
    forall i | 0 <= i <= |t| ensures CellOk(at', h, t, i) {
      if i < |s| {
        assert CellOk(at, h, s, i) && SlotAt(h, t, i) == SlotAt(h, s, i);
      } else if i == |s| {
        assert CellOk(at, g, u, 0) && SlotAt(h, t, i) == SlotAt(h, s, i);
      } else {
        assert CellOk(at, g, u, i - |s|) && SlotAt(h, t, i) == SlotAt(g, u, i - |s|);
      }
    }
    forall i | 0 <= i < |t| ensures PrevOk(prev', h, t, i) {
      if i < |s| {
        assert PrevOk(prev, h, s, i) && SlotAt(h, t, i) == SlotAt(h, s, i) && s[i] in s;
      } else {
        assert PrevOk(prev, g, u, i - |s|);
        assert i > |s| ==> SlotAt(h, t, i) == SlotAt(g, u, i - |s|);
      }
    }
  }

  lemma ConcatAll(at: Cells, prev: Prevs, lists: Lists, h: HeadId, g: HeadId)
    requires AllLinked(at, prev, lists) && h in lists && g in lists && h != g
    ensures AllLinked(ConcatCells(at, h, lists[h], g, lists[g]), ConcatPrevs(prev, h, lists[h], lists[g]), lists[h := lists[h] + lists[g]][g := []])
  {
    var s, u := lists[h], lists[g];
    var at', prev', lists' := ConcatCells(at, h, s, g, u), ConcatPrevs(prev, h, s, u), lists[h := s + u][g := []];
    ConcatLinked(at, prev, h, s, g, u);
    forall x <- lists | x != h && x != g ensures Linked(at', prev', x, lists[x]) {
      OtherList(at, prev, lists, h, x);
      OtherList(at, prev, lists, g, x);
      assert SlotAt(g, u, 0) == First(g);
      LinkedFrame(at, prev, at', prev', x, lists[x]);
    }
  }

  function SwapCells(at: Cells, h: HeadId, s: seq<Elem>, g: HeadId, u: seq<Elem>): Cells
  {
    at[First(h) := if u == [] then None else Some(u[0])][First(g) := if s == [] then None else Some(s[0])]
  }

  function SwapPrevs(prev: Prevs, h: HeadId, s: seq<Elem>, g: HeadId, u: seq<Elem>): Prevs
  {
    var prev1 := if u == [] then prev else prev[u[0] := First(h)];
    if s == [] then prev1 else prev1[s[0] := First(g)]
  }

  lemma SwapLinked(at: Cells, prev: Prevs, h: HeadId, s: seq<Elem>, g: HeadId, u: seq<Elem>)
    requires Linked(at, prev, h, s) && Linked(at, prev, g, u) && h != g && (forall e <- s :: e !in u)
    ensures Linked(SwapCells(at, h, s, g, u), SwapPrevs(prev, h, s, g, u), h, u)
  {
    var at', prev' := SwapCells(at, h, s, g, u), SwapPrevs(prev, h, s, g, u);
    forall i | 0 <= i <= |u| ensures CellOk(at', h, u, i) {
      assert CellOk(at, g, u, i);
      assert i > 0 ==> SlotAt(h, u, i) == SlotAt(g, u, i);
    }
    forall i | 0 <= i < |u| ensures PrevOk(prev', h, u, i) {
      assert PrevOk(prev, g, u, i) && u[i] in u;
      assert i > 0 ==> SlotAt(h, u, i) == SlotAt(g, u, i);
    }
  }

  lemma SwapSymmetric(at: Cells, prev: Prevs, h: HeadId, s: seq<Elem>, g: HeadId, u: seq<Elem>)
    requires h != g && (forall e <- s :: e !in u)
    ensures SwapCells(at, h, s, g, u) == SwapCells(at, g, u, h, s) && SwapPrevs(prev, h, s, g, u) == SwapPrevs(prev, g, u, h, s)
  {
    assert s != [] ==> s[0] in s;
    assert u != [] ==> u[0] in u;
  }

  lemma SwapAll(at: Cells, prev: Prevs, lists: Lists, h: HeadId, g: HeadId)
    requires AllLinked(at, prev, lists) && h in lists && g in lists && h != g
    ensures AllLinked(SwapCells(at, h, lists[h], g, lists[g]), SwapPrevs(prev, h, lists[h], g, lists[g]), lists[h := lists[g]][g := lists[h]])
  {
    var s, u := lists[h], lists[g];
    var at', prev' := SwapCells(at, h, s, g, u), SwapPrevs(prev, h, s, g, u);
    assert forall e <- u :: e !in s;
    SwapLinked(at, prev, h, s, g, u);
    SwapLinked(at, prev, g, u, h, s);
    SwapSymmetric(at, prev, h, s, g, u);
    forall x <- lists | x != h && x != g ensures Linked(at', prev', x, lists[x]) {
      OtherList(at, prev, lists, h, x);
      OtherList(at, prev, lists, g, x);
      assert SlotAt(g, u, 0) == First(g) && SlotAt(h, s, 0) == First(h);
      LinkedFrame(at, prev, at', prev', x, lists[x]);
    }
  }
}
