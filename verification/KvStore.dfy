/**
 Lua programs set, get and increment entries of a dictionary; a module's entries are collected when it
 is unregistered, a dictionary's when its kernel object goes: kvcache.c.
 */
module KvStore {
  import opened Basics
  import opened KvOrder
  import opened KvCache

  class Store {
    var nodes: Nodes
    var dicts: Dicts
    var mods: Modules
    var next: Id
    /** The references to nodes that are neither in a tree nor given up. */
    ghost var hand: multiset<Id>

    ghost predicate Consistent()
      reads this
    {
      IndexesOk(nodes, dicts, mods, {}, {}) && NodesOk(nodes, dicts, mods, hand) && forall id <- nodes :: id < next
    }

    /** Between operations: every node is stored, and refers to nothing but its place. */
    ghost predicate Inv()
      reads this
    {
      Consistent() && hand == multiset{}
    }

    /** kvcache_dict_init */
    method DictInit(d: DictId)
      requires Inv() && d !in dicts
      modifies `dicts
      ensures Inv() && dicts == old(dicts)[d := Dict(1024, 0, [])]
      ensures forall k, e :: ValueIn(nodes, dicts, k, e) == ValueIn(nodes, old(dicts), k, e)
    {
      NewDict(nodes, dicts, mods, hand, d);
      dicts := dicts[d := Dict(CACHE_CAPACITY, 0, [])];
    }

    /** RB_FIND */
    method Find(d: DictId, e: Entry) returns (id: Option<Id>)
      requires Consistent() && d in dicts
      ensures id.Some? ==> Holds(nodes, dicts[d], e, id.value)
      ensures id.None? ==> forall k: Id :: !Holds(nodes, dicts[d], e, k)
    {
      assert TreeOk(nodes, d, dicts[d]);
      var tree := dicts[d].tree;
      for i := 0 to |tree|
        invariant forall j :: 0 <= j < i ==> nodes[tree[j]].entry != e
      {
        assert tree[i] in nodes;
        CmpOrder(nodes[tree[i]].entry, e);
        if Cmp(nodes[tree[i]].entry, e) == 0 {
          return Some(tree[i]);
        }
      }
      return None;
    }

    /** kvcache_node_hold */
    method Hold(id: Id)
      requires Consistent() && id in nodes
      modifies `nodes, `hand
      ensures Consistent() && nodes == old(nodes)[id := old(nodes)[id].(refcount := old(nodes)[id].refcount + 1)]
      ensures hand == old(hand) + multiset{id}
      ensures forall d, e :: ValueIn(nodes, dicts, d, e) == ValueIn(old(nodes), dicts, d, e)
    {
      hide IndexesOk, NodesOk, ValueIn;
      var nodes' := nodes[id := nodes[id].(refcount := nodes[id].refcount + 1)];
      RenewKeeps(nodes, nodes', dicts, mods, {}, {}, id);
      HoldNodes(nodes, dicts, mods, hand, id);
      nodes, hand := nodes', hand + multiset{id};
    }

    /** kvcache_node_drop, at any time: the last reference frees the node. */
    method Release(id: Id, ghost off: set<Id>, ghost loose: set<Id>)
      requires IndexesOk(nodes, dicts, mods, off, loose) && NodesOk(nodes, dicts, mods, hand) && id in hand && id !in loose
      modifies `nodes, `hand
      ensures IndexesOk(nodes, dicts, mods, off, loose) && NodesOk(nodes, dicts, mods, hand) && hand == old(hand) - multiset{id}
      ensures id in old(nodes)
      ensures nodes == if old(nodes)[id].refcount == 1 then old(nodes) - {id}
                       else old(nodes)[id := old(nodes)[id].(refcount := old(nodes)[id].refcount - 1)]
      ensures forall d, e :: ValueIn(nodes, dicts, d, e) == ValueIn(old(nodes), dicts, d, e)
    {
      hide IndexesOk, NodesOk, ValueIn;
      DropNodes(nodes, dicts, mods, hand, id);
      NodeHome(nodes, dicts, mods, hand, id);
      if nodes[id].refcount == 1 {
        LooseNodeKeeps(nodes, dicts, mods, off, loose, id, nodes[id]);
        nodes := nodes - {id};
      } else {
        var nodes' := nodes[id := nodes[id].(refcount := nodes[id].refcount - 1)];
        RenewKeeps(nodes, nodes', dicts, mods, off, loose, id);
        nodes := nodes';
      }
      hand := hand - multiset{id};
    }

    /** kvcache_node_drop */
    method Drop(id: Id)
      requires Consistent() && id in hand
      modifies `nodes, `hand
      ensures Consistent() && hand == old(hand) - multiset{id}
      ensures id in old(nodes)
      ensures nodes == if old(nodes)[id].refcount == 1 then old(nodes) - {id}
                       else old(nodes)[id := old(nodes)[id].(refcount := old(nodes)[id].refcount - 1)]
      ensures forall d, e :: ValueIn(nodes, dicts, d, e) == ValueIn(old(nodes), dicts, d, e)
    {
      Release(id, {}, {});
    }

    /** kvcache_lookup */
    method Lookup(d: DictId, e: Entry) returns (id: Option<Id>)
      requires Consistent() && d in dicts
      modifies `nodes, `hand
      ensures Consistent() && (forall k, f :: ValueIn(nodes, dicts, k, f) == ValueIn(old(nodes), dicts, k, f))
      ensures id.Some? ==> Holds(nodes, dicts[d], e, id.value) && hand == old(hand) + multiset{id.value}
      ensures id.Some? ==> nodes[id.value].dict == d && nodes[id.value].refcount == 2 + old(hand)[id.value] && nodes[id.value].value.Some?
      ensures id.Some? ==> ValueIn(nodes, dicts, d, e) == nodes[id.value].value
      ensures id.None? ==> nodes == old(nodes) && hand == old(hand) && ValueIn(nodes, dicts, d, e) == None
      ensures id.None? ==> forall k: Id :: !Holds(nodes, dicts[d], e, k)
    {
      id := Find(d, e);
      if id.Some? {
        Hold(id.value);
        HeldNode(nodes, dicts, mods, hand, d, e, id.value);
      } else {
        NotHeld(nodes, dicts[d], e);
      }
    }

    /** kvcache_node_alloc; `memory` is whether kmalloc finds memory. */
    method Alloc(d: DictId, e: Entry, memory: bool) returns (id: Option<Id>)
      requires Consistent() && d in dicts && (e.mod != SHARED ==> e.mod in mods)
      modifies `nodes, `hand, `next
      ensures Consistent() && (forall k, f :: ValueIn(nodes, dicts, k, f) == ValueIn(old(nodes), dicts, k, f))
      ensures id.Some? <==> memory
      ensures id.None? ==> nodes == old(nodes) && hand == old(hand)
      ensures id.Some? ==>
        && id.value !in old(nodes) && nodes == old(nodes)[id.value := Node(e, d, 1, None)]
        && hand == old(hand) + multiset{id.value} && !Stored(nodes, dicts, id.value)
    {
      hide NodesOk, ValueIn;
      if !memory {
        return None;
      }
      var n := Node(e, d, 1, None);
      NotStored(nodes, dicts, mods, next);
      LooseNodeKeeps(nodes, dicts, mods, {}, {}, next, n);
      AllocNodes(nodes, dicts, mods, hand, next, n);
      id := Some(next);
      nodes, hand, next := nodes[next := n], hand + multiset{next}, next + 1;
    }

    /** kvcache_module_link of a new node whose entry is not in the tree: only the capacity can be in the way. */
    method Link(id: Id) returns (err: Errno)
      requires Consistent() && id in hand && !Stored(nodes, dicts, id) && nodes[id].value.Some?
      requires forall k: Id :: !Holds(nodes, dicts[nodes[id].dict], nodes[id].entry, k)
      modifies `dicts, `mods, `hand
      ensures err in {OK, ERANGE}
      ensures id in nodes && nodes[id].dict in old(dicts) && (err == ERANGE <==> old(dicts)[nodes[id].dict].count >= old(dicts)[nodes[id].dict].capacity)
      ensures Consistent()
      ensures err == ERANGE ==> dicts == old(dicts) && mods == old(mods) && hand == old(hand)
      ensures err == OK ==> hand == old(hand) - multiset{id} && SameBut(nodes, old(dicts), nodes, dicts, nodes[id].dict, nodes[id].entry)
      ensures err == OK ==> ValueIn(nodes, dicts, nodes[id].dict, nodes[id].entry) == nodes[id].value
      ensures dicts.Keys == old(dicts).Keys
      ensures forall k <- dicts :: dicts[k].capacity == old(dicts)[k].capacity
    {
      hide NodesOk, ValueIn, SameBut;
      HandNode(nodes, dicts, mods, hand, id);
      var n := nodes[id];
      var dict := dicts[n.dict];
      if dict.count >= dict.capacity {
        return ERANGE;
      }
      LinkKeeps(nodes, dicts, mods, id);
      hide IndexesOk;
      TreeThere(nodes, n.dict, dict);
      var dict' := Grown(nodes, dict, id);
      dicts := dicts[n.dict := dict'];
      if n.entry.mod != SHARED {
        mods := mods[n.entry.mod := Module(mods[n.entry.mod].kvnodes + [id], mods[n.entry.mod].count + 1)];
      }
      StoredNodes(nodes, old(dicts), dicts, old(mods), mods, hand, hand - multiset{id}, id);
      hand := hand - multiset{id};
      return OK;
    }

    /** kvcache_module_unlink, of a node at hand */
    method Unlink(id: Id)
      requires Consistent() && Stored(nodes, dicts, id)
      modifies `dicts, `mods, `hand
      ensures Consistent() && hand == old(hand) + multiset{id} && dicts.Keys == old(dicts).Keys
      ensures SameBut(nodes, old(dicts), nodes, dicts, nodes[id].dict, nodes[id].entry)
      ensures ValueIn(nodes, dicts, nodes[id].dict, nodes[id].entry) == None && !Stored(nodes, dicts, id)
      ensures forall k <- dicts :: dicts[k].capacity == old(dicts)[k].capacity
    {
      hide NodesOk, ValueIn, SameBut, IndexesOk;
      var n := nodes[id];
      StoredValue(nodes, dicts, mods, hand, id);
      UnlinkKeeps(nodes, dicts, mods, {}, {}, id);
      ghost var none: set<Id> := {};
      assert none + {id} == {id};
      dicts := dicts[n.dict := Shrunk(dicts[n.dict], id)];
      StoredNodes(nodes, old(dicts), dicts, mods, mods, hand, hand + multiset{id}, id);
      hand := hand + multiset{id};
      if n.entry.mod != SHARED {
        Listed(nodes, dicts, mods, {}, {id}, id);
        ListDelKeeps(nodes, dicts, mods, {}, {id}, n.entry.mod, id);
        var list := mods[n.entry.mod];
        mods := mods[n.entry.mod := Module(RemoveAt(list.kvnodes, IndexOf(list.kvnodes, id)), list.count - 1)];
        assert {id} - {id} == {};
      } else {
        SharedLoose(nodes, dicts, mods, id);
      }
      SameKeys(nodes, dicts, old(mods), mods, hand);
    }

    /** kvcache_node_fill, and kvcache_node_refill of a stored node */
    method Fill(id: Id, arg: Arg) returns (err: Errno)
      requires Consistent() && id in nodes
      modifies `nodes
      ensures Consistent() && err == if arg.Val? then OK else EINVAL
      ensures nodes == if arg.Val? then old(nodes)[id := old(nodes)[id].(value := Some(arg.value))] else old(nodes)
      ensures SameBut(old(nodes), dicts, nodes, dicts, nodes[id].dict, nodes[id].entry)
      ensures err == OK && Stored(nodes, dicts, id) ==> ValueIn(nodes, dicts, nodes[id].dict, nodes[id].entry) == Some(arg.value)
      ensures err != OK || !Stored(nodes, dicts, id) ==> forall k, f :: ValueIn(nodes, dicts, k, f) == ValueIn(old(nodes), dicts, k, f)
    {
      if !arg.Val? {
        return EINVAL;
      }
      hide IndexesOk, NodesOk, ValueIn, SameBut;
      var nodes' := nodes[id := nodes[id].(value := Some(arg.value))];
      RenewKeeps(nodes, nodes', dicts, mods, {}, {}, id);
      FillNodes(nodes, dicts, mods, hand, id, arg.value);
      nodes := nodes';
      return OK;
    }

    /** A node that is allocated and filled, or freed again. */
    method Prepare(d: DictId, e: Entry, arg: Arg, memory: bool) returns (err: Errno, id: Id)
      requires Inv() && d in dicts && (e.mod != SHARED ==> e.mod in mods)
      modifies `nodes, `hand, `next
      ensures Consistent() && (forall k, f :: ValueIn(nodes, dicts, k, f) == ValueIn(old(nodes), dicts, k, f))
      ensures err == if !memory then ENOMEM else if arg.Val? then OK else EINVAL
      ensures err != OK ==> hand == multiset{}
      ensures err == OK ==>
        && id in hand && hand == multiset{id} && !Stored(nodes, dicts, id) && id in nodes && id !in dicts[d].tree
        && nodes[id] == Node(e, d, 1, Some(arg.value)) && nodes - {id} == old(nodes)
    {
      hide IndexesOk, NodesOk, ValueIn, SameBut;
      id := 0;
      var made := Alloc(d, e, memory);
      if made.None? {
        return ENOMEM, 0;
      }
      id := made.value;
      err := Fill(id, arg);
      if err != OK {
        Drop(id);
      }
      assert nodes - {id} == old(nodes);
    }

    /** kvcache_set, when there is no node yet */
    method SetNew(d: DictId, e: Entry, arg: Arg, memory: bool) returns (err: Errno)
      requires Inv() && d in dicts && (e.mod != SHARED ==> e.mod in mods)
      requires ValueIn(nodes, dicts, d, e) == None && forall k: Id :: !Holds(nodes, dicts[d], e, k)
      modifies this
      ensures Inv() && WriteSpec(old(nodes), old(dicts), nodes, dicts, d, e, arg, memory, err)
    {
      hide IndexesOk, NodesOk, ValueIn, SameBut, WriteSpec;
      err := OK;
      if arg.Nil? {
        NotWritten(nodes, nodes, dicts, d, e, arg, memory, OK);
        return;
      }
      var id: Id;
      err, id := Prepare(d, e, arg, memory);
      if err != OK {
        NotWritten(old(nodes), nodes, dicts, d, e, arg, memory, err);
        return;
      }
      ghost var was := nodes;
      NewEntry(old(nodes), nodes, dicts[d], e, id);
      err := Link(id);
      if err == OK {
        Written(was, old(dicts), nodes, dicts, d, e, arg, memory);
        WriteFrom(old(nodes), was, old(dicts), nodes, dicts, d, e, arg, memory, OK);
      } else {
        Drop(id);
        NotWritten(old(nodes), nodes, dicts, d, e, arg, memory, err);
      }
    }

    /** kvcache_set, when there is a node, which the lookup holds */
    method SetOld(d: DictId, e: Entry, id: Id, arg: Arg, ghost memory: bool) returns (err: Errno)
      requires Consistent() && d in dicts && Holds(nodes, dicts[d], e, id) && hand == multiset{id}
      requires nodes[id].dict == d && nodes[id].refcount == 2 && ValueIn(nodes, dicts, d, e).Some?
      modifies this
      ensures Inv() && WriteSpec(old(nodes), old(dicts), nodes, dicts, d, e, arg, memory, err)
    {
      hide IndexesOk, NodesOk, ValueIn, SameBut;
      if arg.Nil? {
        Unlink(id);
        ghost var was := nodes;
        Drop(id);
        Drop(id);
        SameValues(was, dicts, nodes, dicts, d, e);
        SameButTrans(old(nodes), old(dicts), was, dicts, nodes, dicts, d, e);
        err := OK;
      } else {
        err := Fill(id, arg);
        ghost var was := nodes;
        Drop(id);
        SameValues(was, dicts, nodes, dicts, d, e);
        SameButTrans(old(nodes), old(dicts), was, dicts, nodes, dicts, d, e);
      }
    }

    /** kvcache_set; `memory` is whether there is memory for a new node. */
    method Set(d: DictId, e: Entry, arg: Arg, memory: bool) returns (err: Errno)
      requires Inv() && d in dicts && (e.mod != SHARED ==> e.mod in mods)
      modifies this
      ensures Inv() && WriteSpec(old(nodes), old(dicts), nodes, dicts, d, e, arg, memory, err)
    {
      hide IndexesOk, NodesOk, ValueIn, SameBut, WriteSpec;
      var found := Lookup(d, e);
      ghost var was := nodes;
      if found.None? {
        err := SetNew(d, e, arg, memory);
      } else {
        err := SetOld(d, e, found.value, arg, memory);
      }
      WriteFrom(old(nodes), was, old(dicts), nodes, dicts, d, e, arg, memory, err);
    }

    /** kvcache_get */
    method Get(d: DictId, e: Entry) returns (v: Option<Value>)
      requires Inv() && d in dicts
      modifies `nodes, `hand
      ensures Inv() && v == old(ValueIn(nodes, dicts, d, e))
      ensures forall k, f :: ValueIn(nodes, dicts, k, f) == ValueIn(old(nodes), dicts, k, f)
    {
      hide IndexesOk, NodesOk, ValueIn;
      var found := Lookup(d, e);
      v := None;
      if found.Some? {
        v := nodes[found.value].value;
        Drop(found.value);
      }
    }

    /** kvcache_incr; without an argument, `n` is 1. */
    method Incr(d: DictId, e: Entry, n: int, memory: bool) returns (err: Errno, result: int)
      requires Inv() && d in dicts && (e.mod != SHARED ==> e.mod in mods)
      modifies this
      ensures Inv()
      ensures var was := old(ValueIn(nodes, dicts, d, e));
              match was
              case Some(Number(k)) => err == OK && result == k + n && WriteSpec(old(nodes), old(dicts), nodes, dicts, d, e, Val(Number(k + n)), memory, OK)
              case Some(_) => err == EINVAL && WriteSpec(old(nodes), old(dicts), nodes, dicts, d, e, Bad, memory, EINVAL)
              case None => WriteSpec(old(nodes), old(dicts), nodes, dicts, d, e, Val(Number(n)), memory, err) && (err == OK ==> result == n)
    {
      hide IndexesOk, NodesOk, ValueIn, SameBut, WriteSpec;
      result := n;
      var found := Lookup(d, e);
      ghost var was := nodes;
      if found.None? {
        err := SetNew(d, e, Val(Number(n)), memory);
        WriteFrom(old(nodes), was, old(dicts), nodes, dicts, d, e, Val(Number(n)), memory, err);
      } else {
        var id := found.value;
        var v := nodes[id].value.value;
        if v.Number? {
          result := v.n + n;
          err := SetOld(d, e, id, Val(Number(result)), memory);
          WriteFrom(old(nodes), was, old(dicts), nodes, dicts, d, e, Val(Number(result)), memory, err);
          WroteOk(old(nodes), old(dicts), nodes, dicts, d, e, Val(Number(result)), memory, err);
        } else {
          err := SetOld(d, e, id, Bad, memory);
          WriteFrom(old(nodes), was, old(dicts), nodes, dicts, d, e, Bad, memory, err);
          WroteOk(old(nodes), old(dicts), nodes, dicts, d, e, Bad, memory, err);
        }
      }
    }

    // -------------------------------------------------------------- collecting

    /** The first loop of kvcache_module_nodes_gc: out of the trees, but not yet out of the list. */
    method UnlinkAll(m: Mod)
      requires Inv() && m in mods
      modifies `dicts, `hand
      ensures IndexesOk(nodes, dicts, mods, {}, Ids(mods[m].kvnodes)) && NodesOk(nodes, dicts, mods, hand)
      ensures hand == multiset(mods[m].kvnodes) && dicts.Keys == old(dicts).Keys
      ensures forall id <- mods[m].kvnodes :: !Stored(nodes, dicts, id)
      ensures forall k <- dicts :: dicts[k].capacity == old(dicts)[k].capacity
      ensures forall d, e :: ValueIn(nodes, dicts, d, e) == if e.mod == m then None else ValueIn(nodes, old(dicts), d, e)
    {
      hide IndexesOk, NodesOk, ValueIn, SameBut;
      var list := mods[m].kvnodes;
      ListedStored(nodes, dicts, mods, m);
      assert Ids(list[..0]) == {};
      var i := 0;
      while i < |list|
        invariant i <= |list| && list == mods[m].kvnodes && dicts.Keys == old(dicts).Keys
        invariant IndexesOk(nodes, dicts, mods, {}, Ids(list[..i])) && NodesOk(nodes, dicts, mods, hand) && hand == multiset(list[..i])
        invariant forall j :: i <= j < |list| ==> Stored(nodes, dicts, list[j])
        invariant forall j :: 0 <= j < i ==> !Stored(nodes, dicts, list[j])
        invariant forall k <- dicts :: dicts[k].capacity == old(dicts)[k].capacity
        invariant forall d: DictId, e: Entry :: e.mod != m ==> ValueIn(nodes, dicts, d, e) == ValueIn(nodes, old(dicts), d, e)
      {
        var id := list[i];
        StoredValue(nodes, dicts, mods, hand, id);
        UnlinkKeeps(nodes, dicts, mods, {}, Ids(list[..i]), id);
        ghost var was := dicts;
        dicts := dicts[nodes[id].dict := Shrunk(dicts[nodes[id].dict], id)];
        OtherModules(nodes, was, dicts, nodes[id].dict, nodes[id].entry, m);
        StoredNodes(nodes, was, dicts, mods, mods, hand, hand + multiset{id}, id);
        hand := hand + multiset{id};
        assert list[..i + 1] == list[..i] + [id];
        assert Ids(list[..i + 1]) == Ids(list[..i]) + {id};
        i := i + 1;
      }
      assert list[..|list|] == list;
      NoneStored(nodes, dicts, mods, m);
    }

    /** In the middle of kvcache_module_nodes_gc: the module's list holds nodes that are in no tree any more. */
    ghost predicate Collecting(m: Mod)
      reads this
    {
      && m in mods && mods[m].count == |mods[m].kvnodes|
      && IndexesOk(nodes, dicts, mods, {}, Ids(mods[m].kvnodes)) && NodesOk(nodes, dicts, mods, hand)
      && hand == multiset(mods[m].kvnodes)
      && (forall id <- mods[m].kvnodes :: !Stored(nodes, dicts, id)) && (forall id <- nodes :: id < next)
    }

    /** One turn of the second loop: the first node of the list is freed. */
    method CollectFirst(m: Mod)
      requires Collecting(m) && mods[m].kvnodes != []
      modifies `nodes, `mods, `hand
      ensures Collecting(m)
      ensures mods == old(mods)[m := Module(old(mods)[m].kvnodes[1..], old(mods)[m].count - 1)]
      ensures forall d, e :: ValueIn(nodes, dicts, d, e) == ValueIn(old(nodes), dicts, d, e)
    {
      hide IndexesOk, NodesOk, ValueIn, Ids, Stored;
      var list := mods[m].kvnodes;
      var id := list[0];
      CollectStep(nodes, dicts, mods, hand, m);
      mods := mods[m := Module(list[1..], mods[m].count - 1)];
      Release(id, {}, Ids(list[1..]));
      StillLoose(old(nodes), nodes, dicts, list);
    }

    /** kvcache_module_nodes_gc */
    method ModuleGc(m: Mod) returns (n: nat)
      requires Inv() && m in mods
      modifies `nodes, `dicts, `mods, `hand
      ensures Inv() && n == |old(mods)[m].kvnodes| == old(mods)[m].count && mods == old(mods)[m := Module([], 0)]
      ensures dicts.Keys == old(dicts).Keys && forall k <- dicts :: dicts[k].capacity == old(dicts)[k].capacity
      ensures forall d, e :: ValueIn(nodes, dicts, d, e) == if e.mod == m then None else old(ValueIn(nodes, dicts, d, e))
    {
      hide IndexesOk, NodesOk, ValueIn, SameBut;
      n := 0;
      ListCount(nodes, dicts, mods, m);
      UnlinkAll(m);
      ghost var before, trees := nodes, dicts;
      while mods[m].kvnodes != []
        invariant dicts == trees && Collecting(m) && mods == old(mods)[m := mods[m]] && n + |mods[m].kvnodes| == |old(mods)[m].kvnodes|
        invariant forall d, e :: ValueIn(nodes, dicts, d, e) == ValueIn(before, dicts, d, e)
        decreases |mods[m].kvnodes|
      {
        CollectFirst(m);
        n := n + 1;
      }
      assert Ids(mods[m].kvnodes) == {};
      assert mods[m] == Module([], 0);
    }

    /** The first loop of kvcache_dict_free: out of the lists, but not yet out of the tree. */
    method UnlistAll(d: DictId)
      requires Inv() && d in dicts
      modifies `mods
      ensures IndexesOk(nodes, dicts, mods, Ids(dicts[d].tree), {}) && NodesOk(nodes, dicts, mods, hand) && mods.Keys == old(mods).Keys
    {
      hide IndexesOk, NodesOk, ValueIn;
      var x := First(dicts[d].tree);
      ghost var k := 0;
      ghost var tree := dicts[d].tree;
      DictTree(nodes, dicts, mods, {}, {}, d);
      assert Ids(tree[..0]) == {};
      while x.Some?
        invariant k <= |tree| && x == (if k < |tree| then Some(tree[k]) else None) && mods.Keys == old(mods).Keys
        invariant IndexesOk(nodes, dicts, mods, Ids(tree[..k]), {}) && NodesOk(nodes, dicts, mods, hand)
        decreases |tree| - k
      {
        var id := x.value;
        var m := nodes[id].entry.mod;
        assert Stored(nodes, dicts, id) && id !in Ids(tree[..k]);
        StoredValue(nodes, dicts, mods, hand, id);
        ghost var off := Ids(tree[..k]);
        if m != SHARED {
          Listed(nodes, dicts, mods, off, {}, id);
          ListDelKeeps(nodes, dicts, mods, off, {}, m, id);
          ghost var was := mods;
          mods := mods[m := Module(RemoveAt(mods[m].kvnodes, IndexOf(mods[m].kvnodes, id)), mods[m].count - 1)];
          SameKeys(nodes, dicts, was, mods, hand);
          assert {} - {id} == {};
        } else {
          SharedOff(nodes, dicts, mods, off, id);
        }
        NextInTree(tree, k);
        assert Ids(tree[..k + 1]) == off + {id};
        x := After(dicts[d].tree, id);
        k := k + 1;
      }
      assert tree[..|tree|] == tree;
    }

    /** In the middle of kvcache_dict_free: the nodes of `off` that are left are the nodes of the tree, and in no list. */
    ghost predicate Freeing(d: DictId, off: set<Id>)
      reads this
    {
      && d in dicts && IndexesOk(nodes, dicts, mods, off, {}) && NodesOk(nodes, dicts, mods, hand) && hand == multiset{}
      && (forall id <- nodes :: id < next) && (forall id: Id :: id in dicts[d].tree <==> id in off && id in nodes)
    }

    /** The body of the second loop: `y` is what follows `x` before it is removed. */
    method FreeNode(d: DictId, x: Id, ghost off: set<Id>) returns (y: Option<Id>)
      requires Freeing(d, off) && First(dicts[d].tree) == Some(x)
      modifies `nodes, `dicts, `hand
      ensures Freeing(d, off) && y == First(dicts[d].tree)
      ensures x in old(nodes) && nodes == old(nodes) - {x} && dicts == old(dicts)[d := dicts[d]] && dicts[d].tree == old(dicts)[d].tree[1..]
      ensures dicts[d].capacity == old(dicts)[d].capacity && x in off
      ensures forall k: DictId, e: Entry :: k != d ==> ValueIn(nodes, dicts, k, e) == old(ValueIn(nodes, dicts, k, e))
    {
      hide IndexesOk, NodesOk, ValueIn;
      DictTree(nodes, dicts, mods, off, {}, d);
      FirstNode(nodes, dicts, mods, hand, d);
      var tree := dicts[d].tree;
      NextInTree(tree, 0);
      y := After(tree, x);
      UnlinkKeeps(nodes, dicts, mods, off, {}, x);
      dicts := dicts[d := Shrunk(dicts[d], x)];
      StoredNodes(nodes, old(dicts), dicts, mods, mods, hand, hand + multiset{x}, x);
      hand := hand + multiset{x};
      Release(x, off, {});
      assert tree == [x] + tree[1..];
    }

    /** kvcache_dict_free */
    method DictFree(d: DictId)
      requires Inv() && d in dicts
      modifies `nodes, `dicts, `mods, `hand
      ensures Inv() && d in dicts && dicts == old(dicts)[d := dicts[d]] && dicts[d].tree == [] && dicts[d].count == 0
      ensures forall k, e :: ValueIn(nodes, dicts, k, e) == if k == d then None else old(ValueIn(nodes, dicts, k, e))
      ensures nodes == old(nodes) - Ids(old(dicts)[d].tree)
      ensures mods.Keys == old(mods).Keys
    {
      hide IndexesOk, NodesOk, ValueIn;
      DictTree(nodes, dicts, mods, {}, {}, d);
      if dicts[d].count == 0 {
        EmptyDict(nodes, dicts, d);
        assert nodes - Ids(dicts[d].tree) == nodes;
        return;
      }
      UnlistAll(d);
      ghost var off, lists := Ids(dicts[d].tree), mods;
      var x := First(dicts[d].tree);
      assert nodes == nodes - (off - Ids(dicts[d].tree));
      while x.Some?
        invariant mods == lists && Freeing(d, off) && dicts == old(dicts)[d := dicts[d]] && x == First(dicts[d].tree)
        invariant nodes == old(nodes) - (off - Ids(dicts[d].tree)) && Ids(dicts[d].tree) <= off
        invariant forall k: DictId, e: Entry :: k != d ==> ValueIn(nodes, dicts, k, e) == old(ValueIn(nodes, dicts, k, e))
        decreases |dicts[d].tree|
      {
        ghost var was := dicts[d].tree;
        DictTree(nodes, dicts, mods, off, {}, d);
        TailOfTree(was);
        x := FreeNode(d, x.value, off);
      }
      OffGone(nodes, dicts, mods, off);
      DictTree(nodes, dicts, mods, {}, {}, d);
      EmptyDict(nodes, dicts, d);
    }
  }

  lemma TailOfTree(tree: seq<Id>)
    requires tree != [] && Distinct(tree)
    ensures Ids(tree[1..]) == Ids(tree) - {tree[0]}
  {
    assert tree == [tree[0]] + tree[1..];
  }

  lemma FirstNode(nodes: Nodes, dicts: Dicts, mods: Modules, hand: multiset<Id>, d: DictId)
    requires d in dicts && TreeOk(nodes, d, dicts[d]) && dicts[d].tree != [] && NodesOk(nodes, dicts, mods, hand)
    ensures var x := dicts[d].tree[0];
            Stored(nodes, dicts, x) && nodes[x].dict == d && nodes[x].refcount == 1 + hand[x] && nodes[x].value.Some?
  {
    assert Stored(nodes, dicts, dicts[d].tree[0]);
    assert NodeOk(nodes, dicts, mods, hand, dicts[d].tree[0]);
  }

  /** When none of the unlisted nodes is left, the lists are complete again. */
  lemma OffGone(nodes: Nodes, dicts: Dicts, mods: Modules, off: set<Id>)
    requires IndexesOk(nodes, dicts, mods, off, {}) && forall id <- off :: id !in nodes
    ensures IndexesOk(nodes, dicts, mods, {}, {})
  {
    forall m <- mods ensures ListOk(nodes, dicts, m, mods[m], {}, {}) {
      assert ListOk(nodes, dicts, m, mods[m], off, {});
    }
  }

  function First(tree: seq<Id>): Option<Id> { if tree == [] then None else Some(tree[0]) }

  /** The node after `id`, in the order of the tree. */
  function After(tree: seq<Id>, id: Id): Option<Id>
    requires id in tree
  {
    var i := IndexOf(tree, id);
    if i + 1 < |tree| then Some(tree[i + 1]) else None
  }

  lemma NextInTree(tree: seq<Id>, k: nat)
    requires Distinct(tree) && k < |tree|
    ensures IndexOf(tree, tree[k]) == k
  {
  }

  lemma DictTree(nodes: Nodes, dicts: Dicts, mods: Modules, off: set<Id>, loose: set<Id>, d: DictId)
    requires IndexesOk(nodes, dicts, mods, off, loose) && d in dicts
    ensures TreeOk(nodes, d, dicts[d])
  {
  }

  lemma EmptyDict(nodes: Nodes, dicts: Dicts, d: DictId)
    requires d in dicts && dicts[d].tree == []
    ensures forall e: Entry :: ValueIn(nodes, dicts, d, e) == None
  {
    forall e: Entry ensures ValueIn(nodes, dicts, d, e) == None {
      NotHeld(nodes, dicts[d], e);
    }
  }

  lemma SharedOff(nodes: Nodes, dicts: Dicts, mods: Modules, off: set<Id>, id: Id)
    requires IndexesOk(nodes, dicts, mods, off, {}) && id in nodes && nodes[id].entry.mod == SHARED
    ensures IndexesOk(nodes, dicts, mods, off + {id}, {})
  {
    forall m <- mods ensures ListOk(nodes, dicts, m, mods[m], off + {id}, {}) {
      assert ListOk(nodes, dicts, m, mods[m], off, {});
    }
  }

  function Ids(s: seq<Id>): set<Id>
  {
    set id | id in s
  }

  lemma ListCount(nodes: Nodes, dicts: Dicts, mods: Modules, m: Mod)
    requires IndexesOk(nodes, dicts, mods, {}, {}) && m in mods
    ensures mods[m].count == |mods[m].kvnodes|
  {
    assert ListOk(nodes, dicts, m, mods[m], {}, {});
  }

  lemma StillLoose(nodes: Nodes, nodes': Nodes, dicts: Dicts, list: seq<Id>)
    requires forall k <- list :: !Stored(nodes, dicts, k)
    requires list != [] && forall k <- nodes' :: k in nodes && nodes'[k].dict == nodes[k].dict
    ensures forall k <- list[1..] :: !Stored(nodes', dicts, k)
  {
    forall k <- list[1..] ensures !Stored(nodes', dicts, k) {
      assert k in list && !Stored(nodes, dicts, k);
    }
  }

  lemma CollectStep(nodes: Nodes, dicts: Dicts, mods: Modules, hand: multiset<Id>, m: Mod)
    requires m in mods && mods[m].kvnodes != [] && mods[m].count == |mods[m].kvnodes|
    requires IndexesOk(nodes, dicts, mods, {}, Ids(mods[m].kvnodes)) && NodesOk(nodes, dicts, mods, hand)
    requires hand == multiset(mods[m].kvnodes) && !Stored(nodes, dicts, mods[m].kvnodes[0])
    ensures var list := mods[m].kvnodes;
            var mods' := mods[m := Module(list[1..], mods[m].count - 1)];
            && IndexesOk(nodes, dicts, mods', {}, Ids(list[1..])) && NodesOk(nodes, dicts, mods', hand)
            && list[0] in hand && list[0] !in Ids(list[1..]) && hand - multiset{list[0]} == multiset(list[1..])
  {
    hide IndexesOk, NodesOk, Ids, Stored;
    var list := mods[m].kvnodes;
    ListDelKeeps(nodes, dicts, mods, {}, Ids(list), m, list[0]);
    FirstOfList(nodes, dicts, mods, m);
    SameKeys(nodes, dicts, mods, mods[m := Module(list[1..], mods[m].count - 1)], hand);
  }

  lemma FirstOfList(nodes: Nodes, dicts: Dicts, mods: Modules, m: Mod)
    requires m in mods && mods[m].kvnodes != [] && IndexesOk(nodes, dicts, mods, {}, Ids(mods[m].kvnodes))
    ensures var list := mods[m].kvnodes;
            && list[0] !in list[1..] && list[0] !in Ids(list[1..]) && Ids(list) - {list[0]} == Ids(list[1..])
            && RemoveAt(list, IndexOf(list, list[0])) == list[1..]
            && multiset(list) == multiset{list[0]} + multiset(list[1..])
  {
    assert ListOk(nodes, dicts, m, mods[m], {}, Ids(mods[m].kvnodes));
    assert mods[m].kvnodes == [mods[m].kvnodes[0]] + mods[m].kvnodes[1..];
  }

  lemma ListedStored(nodes: Nodes, dicts: Dicts, mods: Modules, m: Mod)
    requires IndexesOk(nodes, dicts, mods, {}, {}) && m in mods
    ensures forall id <- mods[m].kvnodes :: Stored(nodes, dicts, id) && nodes[id].entry.mod == m
    ensures Distinct(mods[m].kvnodes)
  {
    assert ListOk(nodes, dicts, m, mods[m], {}, {});
  }

  lemma OtherModules(nodes: Nodes, dicts: Dicts, dicts': Dicts, d: DictId, e: Entry, m: Mod)
    requires SameBut(nodes, dicts, nodes, dicts', d, e) && e.mod == m
    ensures forall k: DictId, f: Entry :: f.mod != m ==> ValueIn(nodes, dicts', k, f) == ValueIn(nodes, dicts, k, f)
  {
    hide ValueIn;
  }

  /** When no node of the module's list is stored, no dictionary holds an entry of the module. */
  lemma NoneStored(nodes: Nodes, dicts: Dicts, mods: Modules, m: Mod)
    requires m in mods && IndexesOk(nodes, dicts, mods, {}, Ids(mods[m].kvnodes))
    requires forall id <- mods[m].kvnodes :: !Stored(nodes, dicts, id)
    ensures forall d: DictId, e: Entry :: e.mod == m ==> ValueIn(nodes, dicts, d, e) == None
  {
    assert ListOk(nodes, dicts, m, mods[m], {}, Ids(mods[m].kvnodes));
    forall d: DictId, e: Entry | d in dicts && e.mod == m ensures ValueOf(nodes, dicts[d], e) == None {
      assert TreeOk(nodes, d, dicts[d]);
      forall id: Id ensures !Holds(nodes, dicts[d], e, id) {
        assert Holds(nodes, dicts[d], e, id) ==> Stored(nodes, dicts, id);
      }
      NotHeld(nodes, dicts[d], e);
    }
  }

  /**
   What writing `arg` to entry `e` of dictionary `d` does: a map update, bounded by the capacity. A new entry of a
   full dictionary fails, and so does one that no memory is found for; an existing one can always be written or
   deleted; whatever fails changes nothing.
   */
  ghost predicate WriteSpec(nodes: Nodes, dicts: Dicts, nodes': Nodes, dicts': Dicts, d: DictId, e: Entry, arg: Arg, memory: bool, err: Errno)
  {
    var was, now := ValueIn(nodes, dicts, d, e), ValueIn(nodes', dicts', d, e);
    && SameBut(nodes, dicts, nodes', dicts', d, e)
    && dicts'.Keys == dicts.Keys && (forall k <- dicts' :: dicts'[k].capacity == dicts[k].capacity)
    && now == (if err != OK then was else if arg.Val? then Some(arg.value) else None)
    && d in dicts
    && err == (if arg.Nil? then OK
               else if was.Some? then (if arg.Val? then OK else EINVAL)
               else if !memory then ENOMEM
               else if arg.Bad? then EINVAL
               else if dicts[d].count >= dicts[d].capacity then ERANGE
               else OK)
  }

  /** A new entry that could not be made, or that is deleted. */
  lemma NotWritten(nodes: Nodes, nodes': Nodes, dicts: Dicts, d: DictId, e: Entry, arg: Arg, memory: bool, err: Errno)
    requires forall k, f :: ValueIn(nodes', dicts, k, f) == ValueIn(nodes, dicts, k, f)
    requires ValueIn(nodes, dicts, d, e) == None && d in dicts
    requires match err
             case OK => arg.Nil?
             case EINVAL => arg.Bad? && memory
             case ENOMEM => !arg.Nil? && !memory
             case ERANGE => arg.Val? && memory && dicts[d].count >= dicts[d].capacity
    ensures WriteSpec(nodes, dicts, nodes', dicts, d, e, arg, memory, err)
  {
    hide ValueIn;
  }

  lemma Written(nodes: Nodes, dicts: Dicts, nodes': Nodes, dicts': Dicts, d: DictId, e: Entry, arg: Arg, memory: bool)
    requires SameBut(nodes, dicts, nodes', dicts', d, e) && dicts'.Keys == dicts.Keys && d in dicts
    requires forall k <- dicts' :: dicts'[k].capacity == dicts[k].capacity
    requires arg.Val? && ValueIn(nodes', dicts', d, e) == Some(arg.value)
    requires ValueIn(nodes, dicts, d, e) == None ==> memory && dicts[d].count < dicts[d].capacity
    ensures WriteSpec(nodes, dicts, nodes', dicts', d, e, arg, memory, OK)
  {
    hide ValueIn;
  }

  lemma WriteFrom(nodes: Nodes, same: Nodes, dicts: Dicts, nodes': Nodes, dicts': Dicts, d: DictId, e: Entry, arg: Arg, memory: bool, err: Errno)
    requires forall k, f :: ValueIn(same, dicts, k, f) == ValueIn(nodes, dicts, k, f)
    requires WriteSpec(same, dicts, nodes', dicts', d, e, arg, memory, err)
    ensures WriteSpec(nodes, dicts, nodes', dicts', d, e, arg, memory, err)
  {
    hide ValueIn;
  }

  lemma WroteOk(nodes: Nodes, dicts: Dicts, nodes': Nodes, dicts': Dicts, d: DictId, e: Entry, arg: Arg, memory: bool, err: Errno)
    requires WriteSpec(nodes, dicts, nodes', dicts', d, e, arg, memory, err) && ValueIn(nodes, dicts, d, e).Some?
    ensures arg.Val? ==> err == OK
    ensures arg.Bad? ==> err == EINVAL
  {
    hide ValueIn;
  }

  lemma SameValues(nodes: Nodes, dicts: Dicts, nodes': Nodes, dicts': Dicts, d: DictId, e: Entry)
    ensures (forall k, f :: ValueIn(nodes', dicts', k, f) == ValueIn(nodes, dicts, k, f)) ==> SameBut(nodes, dicts, nodes', dicts', d, e)
  {
    hide ValueIn;
  }

  lemma SameButTrans(n0: Nodes, d0: Dicts, n1: Nodes, d1: Dicts, n2: Nodes, d2: Dicts, d: DictId, e: Entry)
    requires SameBut(n0, d0, n1, d1, d, e) && SameBut(n1, d1, n2, d2, d, e)
    ensures SameBut(n0, d0, n2, d2, d, e)
  {
    hide ValueIn;
  }

  /** A node that is not in a tree does not hold its entry. */
  lemma NewEntry(nodes: Nodes, nodes': Nodes, dict: Dict, e: Entry, id: Id)
    requires forall k: Id :: !Holds(nodes, dict, e, k)
    requires id in nodes' && nodes' - {id} == nodes && id !in dict.tree
    ensures forall k: Id :: !Holds(nodes', dict, e, k)
  {
    forall k: Id ensures !Holds(nodes', dict, e, k) {
      assert !Holds(nodes, dict, e, k);
      if k in nodes' && k != id {
        assert nodes'[k] == (nodes' - {id})[k];
      }
    }
  }

  lemma HeldNode(nodes: Nodes, dicts: Dicts, mods: Modules, hand: multiset<Id>, d: DictId, e: Entry, id: Id)
    requires IndexesOk(nodes, dicts, mods, {}, {}) && NodesOk(nodes, dicts, mods, hand) && d in dicts && Holds(nodes, dicts[d], e, id)
    ensures nodes[id].dict == d && Stored(nodes, dicts, id) && nodes[id].refcount == 1 + hand[id] && nodes[id].value.Some?
    ensures ValueIn(nodes, dicts, d, e) == nodes[id].value
  {
    assert TreeOk(nodes, d, dicts[d]) && NodeOk(nodes, dicts, mods, hand, id);
    ValueAt(nodes, d, dicts[d], e, id);
  }

  lemma HandNode(nodes: Nodes, dicts: Dicts, mods: Modules, hand: multiset<Id>, id: Id)
    requires NodesOk(nodes, dicts, mods, hand) && id in hand
    ensures id in nodes && nodes[id].dict in dicts && (nodes[id].entry.mod != SHARED ==> nodes[id].entry.mod in mods)
  {
    assert NodeOk(nodes, dicts, mods, hand, id);
  }

  lemma TreeThere(nodes: Nodes, d: DictId, dict: Dict)
    requires TreeOk(nodes, d, dict)
    ensures forall k <- dict.tree :: k in nodes
  {
  }

  lemma NotStored(nodes: Nodes, dicts: Dicts, mods: Modules, id: Id)
    requires IndexesOk(nodes, dicts, mods, {}, {}) && id !in nodes
    ensures !Stored(nodes, dicts, id) && forall d <- dicts :: id !in dicts[d].tree
  {
    forall d <- dicts ensures id !in dicts[d].tree {
      assert TreeOk(nodes, d, dicts[d]);
    }
  }

  lemma StoredValue(nodes: Nodes, dicts: Dicts, mods: Modules, hand: multiset<Id>, id: Id)
    requires NodesOk(nodes, dicts, mods, hand) && Stored(nodes, dicts, id)
    ensures nodes[id].value.Some? && (nodes[id].entry.mod != SHARED ==> nodes[id].entry.mod in mods)
  {
    assert NodeOk(nodes, dicts, mods, hand, id);
  }

  lemma Listed(nodes: Nodes, dicts: Dicts, mods: Modules, off: set<Id>, loose: set<Id>, id: Id)
    requires IndexesOk(nodes, dicts, mods, off, loose) && id in nodes && nodes[id].entry.mod in mods
    requires id in loose || (Stored(nodes, dicts, id) && id !in off)
    ensures id in mods[nodes[id].entry.mod].kvnodes
  {
    assert ListOk(nodes, dicts, nodes[id].entry.mod, mods[nodes[id].entry.mod], off, loose);
  }

  /** A node of no module is in no list. */
  lemma SharedLoose(nodes: Nodes, dicts: Dicts, mods: Modules, id: Id)
    requires IndexesOk(nodes, dicts, mods, {}, {id}) && id in nodes && nodes[id].entry.mod == SHARED
    ensures IndexesOk(nodes, dicts, mods, {}, {})
  {
    forall m <- mods ensures ListOk(nodes, dicts, m, mods[m], {}, {}) {
      assert ListOk(nodes, dicts, m, mods[m], {}, {id});
    }
  }

  lemma SameKeys(nodes: Nodes, dicts: Dicts, mods: Modules, mods': Modules, hand: multiset<Id>)
    requires NodesOk(nodes, dicts, mods, hand) && mods'.Keys == mods.Keys
    ensures NodesOk(nodes, dicts, mods', hand)
  {
    forall id <- nodes ensures NodeOk(nodes, dicts, mods', hand, id) {
      assert NodeOk(nodes, dicts, mods, hand, id);
    }
  }

  lemma NewDict(nodes: Nodes, dicts: Dicts, mods: Modules, hand: multiset<Id>, d: DictId)
    requires IndexesOk(nodes, dicts, mods, {}, {}) && NodesOk(nodes, dicts, mods, hand) && d !in dicts
    ensures var dicts' := dicts[d := Dict(CACHE_CAPACITY, 0, [])];
            && IndexesOk(nodes, dicts', mods, {}, {}) && NodesOk(nodes, dicts', mods, hand)
            && forall k, e :: ValueIn(nodes, dicts', k, e) == ValueIn(nodes, dicts, k, e)
  {
    var dicts' := dicts[d := Dict(CACHE_CAPACITY, 0, [])];
    forall id <- nodes ensures NodeOk(nodes, dicts', mods, hand, id) && (Stored(nodes, dicts', id) <==> Stored(nodes, dicts, id)) {
      assert NodeOk(nodes, dicts, mods, hand, id);
    }
    forall m <- mods ensures ListOk(nodes, dicts', m, mods[m], {}, {}) {
      assert ListOk(nodes, dicts, m, mods[m], {}, {});
    }
    forall e: Entry ensures ValueIn(nodes, dicts', d, e) == None {
      NotHeld(nodes, dicts'[d], e);
    }
  }

  lemma NodeHome(nodes: Nodes, dicts: Dicts, mods: Modules, hand: multiset<Id>, id: Id)
    requires NodesOk(nodes, dicts, mods, hand) && id in nodes
    ensures nodes[id].dict in dicts
  {
    assert NodeOk(nodes, dicts, mods, hand, id);
  }
}
