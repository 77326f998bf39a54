/**
 The operations of LIST and TAILQ (queue.h), in place.
 */
module Queues {
  import opened Basics
  import opened QueueShape

  /** The memory of tail queues: `at` is what each slot points at, `last` the field tqh_last of a head. */
  class TailQueues {
    var at: Cells
    var prev: Prevs
    var last: map<HeadId, Slot>
    ghost var lists: Lists

    ghost predicate Inv()
      reads this
    {
      AllLinked(at, prev, lists) && forall h <- lists :: LastOk(last, lists, h)
    }

    constructor ()
      ensures Inv() && lists == map[]
    {
      at, prev, last, lists := map[], map[], map[], map[];
    }

    /** TAILQ_INIT, of a new head */
    method Init(h: HeadId)
      requires Inv() && h !in lists
      modifies this
      ensures Inv() && lists == old(lists)[h := []]
    {
      InitAll(at, prev, lists, h);
      at := at[First(h) := None];
      last := last[h := First(h)];
      lists := lists[h := []];
    }

    method InsertHead(h: HeadId, elm: Elem)
      requires Inv() && h in lists && Free(lists, elm)
      modifies this
      ensures Inv() && lists == old(lists)[h := [elm] + old(lists)[h]]
    {
      ListCells(at, prev, lists, h, 0);
      InsertAll(at, prev, lists, h, 0, elm);
      at := at[Next(elm) := at[First(h)]];
      if at[Next(elm)].Some? {
        prev := prev[at[First(h)].value := Next(elm)];
      } else {
        last := last[h := Next(elm)];
      }
      at := at[First(h) := Some(elm)];
      prev := prev[elm := First(h)];
      lists := lists[h := Inserted(lists[h], 0, elm)];
      assert lists[h] == [elm] + old(lists)[h];
    }

    method InsertTail(h: HeadId, elm: Elem)
      requires Inv() && h in lists && Free(lists, elm)
      modifies this
      ensures Inv() && lists == old(lists)[h := old(lists)[h] + [elm]]
    {
      InsertAll(at, prev, lists, h, |lists[h]|, elm);
      at := at[Next(elm) := None];
      prev := prev[elm := last[h]];
      at := at[last[h] := Some(elm)];
      last := last[h := Next(elm)];
      lists := lists[h := Inserted(lists[h], |lists[h]|, elm)];
      assert lists[h] == old(lists)[h] + [elm];
    }

    method InsertAfter(h: HeadId, listelm: Elem, elm: Elem)
      requires Inv() && h in lists && listelm in lists[h] && Free(lists, elm)
      modifies this
      ensures Inv() && lists == old(lists)[h := Inserted(old(lists)[h], Position(old(lists)[h], listelm) + 1, elm)]
    {
      ghost var k := Position(lists[h], listelm) + 1;
      ListCells(at, prev, lists, h, k);
      InsertAll(at, prev, lists, h, k, elm);
      at := at[Next(elm) := at[Next(listelm)]];
      if at[Next(elm)].Some? {
        prev := prev[at[Next(elm)].value := Next(elm)];
      } else {
        last := last[h := Next(elm)];
      }
      at := at[Next(listelm) := Some(elm)];
      prev := prev[elm := Next(listelm)];
      lists := lists[h := Inserted(lists[h], k, elm)];
    }

    method InsertBefore(ghost h: HeadId, listelm: Elem, elm: Elem)
      requires Inv() && h in lists && listelm in lists[h] && Free(lists, elm)
      modifies this
      ensures Inv() && lists == old(lists)[h := Inserted(old(lists)[h], Position(old(lists)[h], listelm), elm)]
    {
      ghost var k := Position(lists[h], listelm);
      ListCells(at, prev, lists, h, k);
      InsertAll(at, prev, lists, h, k, elm);
      prev := prev[elm := prev[listelm]];
      at := at[Next(elm) := Some(listelm)];
      at := at[prev[listelm] := Some(elm)];
      prev := prev[listelm := Next(elm)];
      lists := lists[h := Inserted(lists[h], k, elm)];
      assert prev == InsertPrevs(old(prev), h, old(lists)[h], k, elm);
    }

    method Remove(h: HeadId, elm: Elem)
      requires Inv() && h in lists && elm in lists[h]
      modifies this
      ensures Inv() && lists == old(lists)[h := Removed(old(lists)[h], Position(old(lists)[h], elm))] && Free(lists, elm)
    {
      ghost var k := Position(lists[h], elm);
      ListCells(at, prev, lists, h, k);
      ListCells(at, prev, lists, h, k + 1);
      RemoveAll(at, prev, lists, h, k);
      if at[Next(elm)].Some? {
        prev := prev[at[Next(elm)].value := prev[elm]];
      } else {
        last := last[h := prev[elm]];
      }
      at := at[prev[elm] := at[Next(elm)]];
      lists := lists[h := Removed(lists[h], k)];
    }

    method Replace(h: HeadId, elm: Elem, elm2: Elem)
      requires Inv() && h in lists && elm in lists[h] && Free(lists, elm2)
      modifies this
      ensures Inv() && lists == old(lists)[h := Replaced(old(lists)[h], Position(old(lists)[h], elm), elm2)]
    {
      ghost var k := Position(lists[h], elm);
      ListCells(at, prev, lists, h, k);
      ListCells(at, prev, lists, h, k + 1);
      ReplaceAll(at, prev, lists, h, k, elm2);
      at := at[Next(elm2) := at[Next(elm)]];
      if at[Next(elm2)].Some? {
        prev := prev[at[Next(elm2)].value := Next(elm2)];
      } else {
        last := last[h := Next(elm2)];
      }
      prev := prev[elm2 := prev[elm]];
      at := at[prev[elm2] := Some(elm2)];
      lists := lists[h := Replaced(lists[h], k, elm2)];
    }

    method Concat(h: HeadId, g: HeadId)
      requires Inv() && h in lists && g in lists && h != g
      modifies this
      ensures Inv() && lists == old(lists)[h := old(lists)[h] + old(lists)[g]][g := []]
    {
      ListCells(at, prev, lists, h, |lists[h]|);
      ListCells(at, prev, lists, g, 0);
      ConcatAll(at, prev, lists, h, g);
      ghost var s, u := lists[h], lists[g];
      if at[First(g)].Some? {
        at := at[last[h] := at[First(g)]];
        prev := prev[at[First(g)].value := last[h]];
        last := last[h := last[g]];
        at := at[First(g) := None];
        last := last[g := First(g)];
      }
      lists := lists[h := s + u][g := []];
      assert u == [] ==> s + u == s;
    }

    method Swap(h: HeadId, g: HeadId)
      requires Inv() && h in lists && g in lists && h != g
      modifies this
      ensures Inv() && lists == old(lists)[h := old(lists)[g]][g := old(lists)[h]]
    {
      hide AllLinked, LastOk;
      ListCells(at, prev, lists, h, 0);
      ListCells(at, prev, lists, g, 0);
      SwapAll(at, prev, lists, h, g);
      SwapLasts(last, lists, h, g);
      var first, tail := at[First(h)], last[h];
      at := at[First(h) := at[First(g)]];
      last := last[h := last[g]];
      at := at[First(g) := first];
      last := last[g := tail];
      assert at == SwapCells(old(at), h, lists[h], g, lists[g]);
      if at[First(h)].Some? {
        prev := prev[at[First(h)].value := First(h)];
      } else {
        last := last[h := First(h)];
      }
      if at[First(g)].Some? {
        prev := prev[at[First(g)].value := First(g)];
      } else {
        last := last[g := First(g)];
      }
      assert prev == SwapPrevs(old(prev), h, lists[h], g, lists[g]);
      assert last == SwappedLast(old(last), lists, h, g);
      lists := lists[h := lists[g]][g := lists[h]];
    }

    /** The second field of the structure that begins at a slot: tqh_last of a head, tqe_prev of an element. */
    function Second(slot: Slot): Slot
      reads this
      requires match slot case First(h) => h in last case Next(e) => e in prev
    {
      match slot
      case First(h) => last[h]
      case Next(e) => prev[e]
    }

    /** TAILQ_LAST */
    method Last(h: HeadId) returns (e: Option<Elem>)
      requires Inv() && h in lists
      ensures e == if lists[h] == [] then None else Some(lists[h][|lists[h]| - 1])
    {
      ghost var n := |lists[h]|;
      ListCells(at, prev, lists, h, n);
      if n > 0 {
        ListCells(at, prev, lists, h, n - 1);
      }
      e := at[Second(last[h])];
    }

    /** TAILQ_PREV */
    method Prev(ghost h: HeadId, elm: Elem) returns (e: Option<Elem>)
      requires Inv() && h in lists && elm in lists[h]
      ensures var k := Position(lists[h], elm); e == if k == 0 then None else Some(lists[h][k - 1])
    {
      ghost var k := Position(lists[h], elm);
      ListCells(at, prev, lists, h, k);
      ListCells(at, prev, lists, h, |lists[h]|);
      if k > 0 {
        ListCells(at, prev, lists, h, k - 1);
      }
      e := at[Second(prev[elm])];
    }

    /** TAILQ_FOREACH_REVERSE, gathering what it meets */
    method Reverse(h: HeadId) returns (met: seq<Elem>)
      requires Inv() && h in lists
      ensures |met| == |lists[h]| && forall i :: 0 <= i < |met| ==> met[i] == lists[h][|met| - 1 - i]
    {
      met := [];
      var x := Last(h);
      ghost var s := lists[h];
      ListDistinct(at, prev, lists, h);
      while x.Some?
        invariant |met| <= |s| && forall i :: 0 <= i < |met| ==> met[i] == s[|s| - 1 - i]
        invariant x == if |met| == |s| then None else Some(s[|s| - 1 - |met|])
        decreases |s| - |met|
      {
        met := met + [x.value];
        PositionOf(s, |s| - |met|);
        x := Prev(h, x.value);
      }
    }
  }

  /** The memory of lists without a tail pointer. */
  class PlainLists {
    var at: Cells
    var prev: Prevs
    ghost var lists: Lists

    ghost predicate Inv()
      reads this
    {
      AllLinked(at, prev, lists)
    }

    constructor ()
      ensures Inv() && lists == map[]
    {
      at, prev, lists := map[], map[], map[];
    }

    /** LIST_INIT, of a new head */
    method Init(h: HeadId)
      requires Inv() && h !in lists
      modifies this
      ensures Inv() && lists == old(lists)[h := []]
    {
      InitAll(at, prev, lists, h);
      at := at[First(h) := None];
      lists := lists[h := []];
    }

    method InsertHead(h: HeadId, elm: Elem)
      requires Inv() && h in lists && Free(lists, elm)
      modifies this
      ensures Inv() && lists == old(lists)[h := [elm] + old(lists)[h]]
    {
      ListCells(at, prev, lists, h, 0);
      InsertAll(at, prev, lists, h, 0, elm);
      at := at[Next(elm) := at[First(h)]];
      if at[Next(elm)].Some? {
        prev := prev[at[First(h)].value := Next(elm)];
      }
      at := at[First(h) := Some(elm)];
      prev := prev[elm := First(h)];
      lists := lists[h := Inserted(lists[h], 0, elm)];
      assert lists[h] == [elm] + old(lists)[h];
    }

    method InsertAfter(ghost h: HeadId, listelm: Elem, elm: Elem)
      requires Inv() && h in lists && listelm in lists[h] && Free(lists, elm)
      modifies this
      ensures Inv() && lists == old(lists)[h := Inserted(old(lists)[h], Position(old(lists)[h], listelm) + 1, elm)]
    {
      ghost var k := Position(lists[h], listelm) + 1;
      ListCells(at, prev, lists, h, k);
      InsertAll(at, prev, lists, h, k, elm);
      at := at[Next(elm) := at[Next(listelm)]];
      if at[Next(elm)].Some? {
        prev := prev[at[Next(listelm)].value := Next(elm)];
      }
      at := at[Next(listelm) := Some(elm)];
      prev := prev[elm := Next(listelm)];
      lists := lists[h := Inserted(lists[h], k, elm)];
    }

    method InsertBefore(ghost h: HeadId, listelm: Elem, elm: Elem)
      requires Inv() && h in lists && listelm in lists[h] && Free(lists, elm)
      modifies this
      ensures Inv() && lists == old(lists)[h := Inserted(old(lists)[h], Position(old(lists)[h], listelm), elm)]
    {
      ghost var k := Position(lists[h], listelm);
      ListCells(at, prev, lists, h, k);
      InsertAll(at, prev, lists, h, k, elm);
      prev := prev[elm := prev[listelm]];
      at := at[Next(elm) := Some(listelm)];
      at := at[prev[listelm] := Some(elm)];
      prev := prev[listelm := Next(elm)];
      lists := lists[h := Inserted(lists[h], k, elm)];
      assert prev == InsertPrevs(old(prev), h, old(lists)[h], k, elm);
    }

    method Remove(ghost h: HeadId, elm: Elem)
      requires Inv() && h in lists && elm in lists[h]
      modifies this
      ensures Inv() && lists == old(lists)[h := Removed(old(lists)[h], Position(old(lists)[h], elm))] && Free(lists, elm)
    {
      ghost var k := Position(lists[h], elm);
      ListCells(at, prev, lists, h, k);
      ListCells(at, prev, lists, h, k + 1);
      RemoveAll(at, prev, lists, h, k);
      if at[Next(elm)].Some? {
        prev := prev[at[Next(elm)].value := prev[elm]];
      }
      at := at[prev[elm] := at[Next(elm)]];
      lists := lists[h := Removed(lists[h], k)];
    }

    method Replace(ghost h: HeadId, elm: Elem, elm2: Elem)
      requires Inv() && h in lists && elm in lists[h] && Free(lists, elm2)
      modifies this
      ensures Inv() && lists == old(lists)[h := Replaced(old(lists)[h], Position(old(lists)[h], elm), elm2)]
    {
      ghost var k := Position(lists[h], elm);
      ListCells(at, prev, lists, h, k);
      ListCells(at, prev, lists, h, k + 1);
      ReplaceAll(at, prev, lists, h, k, elm2);
      at := at[Next(elm2) := at[Next(elm)]];
      if at[Next(elm2)].Some? {
        prev := prev[at[Next(elm2)].value := Next(elm2)];
      }
      prev := prev[elm2 := prev[elm]];
      at := at[prev[elm2] := Some(elm2)];
      lists := lists[h := Replaced(lists[h], k, elm2)];
    }

    /** LIST_CONCAT: without a tail pointer, it has to walk to the end of the first list. */
    method Concat(h: HeadId, g: HeadId)
      requires Inv() && h in lists && g in lists && h != g
      modifies this
      ensures Inv() && lists == old(lists)[h := old(lists)[h] + old(lists)[g]][g := []]
    {
      ListCells(at, prev, lists, h, 0);
      ListCells(at, prev, lists, h, |lists[h]|);
      ListCells(at, prev, lists, g, 0);
      ConcatAll(at, prev, lists, h, g);
      ghost var s, u := lists[h], lists[g];
      var curelm := at[First(h)];
      if curelm.None? {
        at := at[First(h) := at[First(g)]];
        if at[First(h)].Some? {
          prev := prev[at[First(g)].value := First(h)];
          at := at[First(g) := None];
        }
      } else if at[First(g)].Some? {
        var c := curelm.value;
        ghost var k := 0;
        ListCells(at, prev, lists, h, 1);
        while at[Next(c)].Some?
          invariant k < |s| && c == s[k] && at == old(at) && prev == old(prev) && lists == old(lists) && Next(c) in at
          invariant CellOk(at, h, s, k + 1)
          decreases |s| - k
        {
          c := at[Next(c)].value;
          k := k + 1;
          ListCells(at, prev, lists, h, k + 1);
        }
        at := at[Next(c) := at[First(g)]];
        prev := prev[at[First(g)].value := Next(c)];
        at := at[First(g) := None];
      }
      assert at == ConcatCells(old(at), h, s, g, u) && prev == ConcatPrevs(old(prev), h, s, u);
      lists := lists[h := s + u][g := []];
      assert u == [] ==> s + u == s;
    }

    method Swap(h: HeadId, g: HeadId)
      requires Inv() && h in lists && g in lists && h != g
      modifies this
      ensures Inv() && lists == old(lists)[h := old(lists)[g]][g := old(lists)[h]]
    {
      ListCells(at, prev, lists, h, 0);
      ListCells(at, prev, lists, g, 0);
      SwapAll(at, prev, lists, h, g);
      var tmp := at[First(h)];
      at := at[First(h) := at[First(g)]];
      at := at[First(g) := tmp];
      tmp := at[First(h)];
      if tmp.Some? {
        prev := prev[tmp.value := First(h)];
      }
      tmp := at[First(g)];
      if tmp.Some? {
        prev := prev[tmp.value := First(g)];
      }
      lists := lists[h := lists[g]][g := lists[h]];
    }

    /** LIST_PREV: the element that holds the slot that points at `elm`, unless that is the head. */
    method Prev(h: HeadId, elm: Elem) returns (e: Option<Elem>)
      requires Inv() && h in lists && elm in lists[h]
      ensures var k := Position(lists[h], elm); e == if k == 0 then None else Some(lists[h][k - 1])
    {
      ListCells(at, prev, lists, h, Position(lists[h], elm));
      e := match prev[elm] case First(_) => None case Next(x) => Some(x);
    }
  }

  ghost predicate LastOk(last: map<HeadId, Slot>, lists: Lists, h: HeadId)
    requires h in lists
  {
    h in last && last[h] == SlotAt(h, lists[h], |lists[h]|)
  }

  function SwappedLast(last: map<HeadId, Slot>, lists: Lists, h: HeadId, g: HeadId): map<HeadId, Slot>
    requires {h, g} <= lists.Keys * last.Keys
  {
    var swapped := last[h := last[g]][g := last[h]];
    var first := if lists[g] == [] then swapped[h := First(h)] else swapped;
    if lists[h] == [] then first[g := First(g)] else first
  }

  lemma SwapLasts(last: map<HeadId, Slot>, lists: Lists, h: HeadId, g: HeadId)
    requires h in lists && g in lists && h != g && forall x <- lists :: LastOk(last, lists, x)
    ensures h in last && g in last
    ensures var lists' := lists[h := lists[g]][g := lists[h]];
            forall x <- lists' :: LastOk(SwappedLast(last, lists, h, g), lists', x)
  {
    assert LastOk(last, lists, h) && LastOk(last, lists, g);
  }

  /** What the representation says about one slot and one element. */
  lemma ListCells(at: Cells, prev: Prevs, lists: Lists, h: HeadId, k: nat)
    requires AllLinked(at, prev, lists) && h in lists && k <= |lists[h]|
    ensures CellOk(at, h, lists[h], k) && (k < |lists[h]| ==> PrevOk(prev, h, lists[h], k)) && First(h) in at
    ensures Distinct(lists[h])
  {
    assert Linked(at, prev, h, lists[h]);
    assert CellOk(at, h, lists[h], 0);
  }

  lemma ListDistinct(at: Cells, prev: Prevs, lists: Lists, h: HeadId)
    requires AllLinked(at, prev, lists) && h in lists
    ensures Distinct(lists[h])
  {
    assert Linked(at, prev, h, lists[h]);
  }

  lemma InitAll(at: Cells, prev: Prevs, lists: Lists, h: HeadId)
    requires AllLinked(at, prev, lists) && h !in lists
    ensures AllLinked(at[First(h) := None], prev, lists[h := []])
  {
    var at' := at[First(h) := None];
    forall g <- lists ensures Linked(at', prev, g, lists[g]) {
      LinkedFrame(at, prev, at', prev, g, lists[g]);
    }
  }
}
