/**
 The key/value caches of the Lua LSM: kvcache.c.

 A node sits in the tree of its dictionary and, if it belongs to a module, in that module's list. The
 trees are the ordered sequences that RB_FIND, RB_INSERT, RB_REMOVE, RB_MIN and RB_NEXT work on. Each
 operation of a Lua program is taken as one step.
 */
module KvCache {
  import opened Basics
  import opened KvOrder

  type DictId = nat

  const CACHE_CAPACITY := 1024

  datatype Errno = OK | EINVAL | ERANGE | ENOMEM

  datatype Value = Boolean(b: bool) | Number(n: int) | Pointer(p: nat)

  /** A Lua argument: nil, something that can be stored, or of a type that cannot. */
  datatype Arg = Nil | Val(value: Value) | Bad

  /** A node whose value is None has type LUA_TNIL. */
  datatype Node = Node(entry: Entry, dict: DictId, refcount: nat, value: Option<Value>)

  datatype Dict = Dict(capacity: nat, count: nat, tree: seq<Id>)

  datatype Module = Module(kvnodes: seq<Id>, count: nat)

  type Nodes = map<Id, Node>
  type Dicts = map<DictId, Dict>
  type Modules = map<Mod, Module>

  // ---------------------------------------------------------------- what the two indexes mean

  /** The node is in the tree of its dictionary. */
  predicate Stored(nodes: Nodes, dicts: Dicts, id: Id)
  {
    id in nodes && nodes[id].dict in dicts && id in dicts[nodes[id].dict].tree
  }

  function Entries(nodes: Nodes, tree: seq<Id>): seq<Entry>
    requires forall id <- tree :: id in nodes
  {
    seq(|tree|, i requires 0 <= i < |tree| => assert tree[i] in nodes; nodes[tree[i]].entry)
  }

  ghost predicate TreeOk(nodes: Nodes, d: DictId, dict: Dict)
  {
    && (forall id <- dict.tree :: id in nodes && nodes[id].dict == d)
    && Sorted(Entries(nodes, dict.tree)) && Distinct(dict.tree)
    && dict.count == |dict.tree| <= dict.capacity
  }

  /** The list holds the stored nodes of the module, but for those in `off`, and those in `loose`, which are not stored. */
  ghost predicate ListOk(nodes: Nodes, dicts: Dicts, m: Mod, list: Module, off: set<Id>, loose: set<Id>)
  {
    && list.count == |list.kvnodes| && Distinct(list.kvnodes)
    && forall id: Id :: id in list.kvnodes <==> id in nodes && nodes[id].entry.mod == m && ((Stored(nodes, dicts, id) && id !in off) || id in loose)
  }

  /** A node is counted once for being stored, and once for everyone who has it at hand. */
  ghost predicate NodeOk(nodes: Nodes, dicts: Dicts, mods: Modules, hand: multiset<Id>, id: Id)
    requires id in nodes
  {
    var n := nodes[id];
    && n.dict in dicts && (n.entry.mod != SHARED ==> n.entry.mod in mods)
    && n.refcount == (if Stored(nodes, dicts, id) then 1 else 0) + hand[id] > 0
    && (Stored(nodes, dicts, id) ==> n.value.Some?)
  }

  ghost predicate IndexesOk(nodes: Nodes, dicts: Dicts, mods: Modules, off: set<Id>, loose: set<Id>)
  {
    && SHARED !in mods
    && (forall d <- dicts :: TreeOk(nodes, d, dicts[d]))
    && (forall m <- mods :: ListOk(nodes, dicts, m, mods[m], off, loose))
  }

  ghost predicate NodesOk(nodes: Nodes, dicts: Dicts, mods: Modules, hand: multiset<Id>)
  {
    && (forall id <- nodes :: NodeOk(nodes, dicts, mods, hand, id))
    && (forall id <- hand :: id in nodes)
  }

  // ---------------------------------------------------------------- the map that a dictionary is

  /** The node of `e` in the dictionary. */
  ghost predicate Holds(nodes: Nodes, dict: Dict, e: Entry, id: Id)
  {
    id in dict.tree && id in nodes && nodes[id].entry == e
  }

  ghost function ValueOf(nodes: Nodes, dict: Dict, e: Entry): Option<Value>
  {
    if exists id: Id :: Holds(nodes, dict, e, id) then
      var id: Id :| Holds(nodes, dict, e, id);
      nodes[id].value
    else None
  }

  /** An entry has at most one node. */
  lemma HoldsUnique(nodes: Nodes, d: DictId, dict: Dict, e: Entry, a: Id, b: Id)
    requires TreeOk(nodes, d, dict) && Holds(nodes, dict, e, a) && Holds(nodes, dict, e, b)
    ensures a == b
  {
    var i, j := IndexOf(dict.tree, a), IndexOf(dict.tree, b);
    var es := Entries(nodes, dict.tree);
    assert es[i] == e && es[j] == e;
    CmpOrder(e, e);
  }

  lemma ValueAt(nodes: Nodes, d: DictId, dict: Dict, e: Entry, id: Id)
    requires TreeOk(nodes, d, dict) && Holds(nodes, dict, e, id)
    ensures ValueOf(nodes, dict, e) == nodes[id].value
  {
    var k: Id :| Holds(nodes, dict, e, k) && ValueOf(nodes, dict, e) == nodes[k].value;
    HoldsUnique(nodes, d, dict, e, id, k);
  }

  ghost function ValueIn(nodes: Nodes, dicts: Dicts, d: DictId, e: Entry): Option<Value>
  {
    if d in dicts then ValueOf(nodes, dicts[d], e) else None
  }

  /** Only `e` of dictionary `d` may have changed. */
  ghost predicate SameBut(nodes: Nodes, dicts: Dicts, nodes': Nodes, dicts': Dicts, d: DictId, e: Entry)
  {
    forall k: DictId, f: Entry :: k != d || f != e ==> ValueIn(nodes', dicts', k, f) == ValueIn(nodes, dicts, k, f)
  }

  lemma ValueSame(nodes: Nodes, dict: Dict, nodes': Nodes, dict': Dict, d: DictId, e: Entry)
    requires TreeOk(nodes, d, dict) && TreeOk(nodes', d, dict')
    requires forall id: Id :: Holds(nodes, dict, e, id) <==> Holds(nodes', dict', e, id)
    requires forall id: Id :: Holds(nodes, dict, e, id) ==> id in nodes' && nodes'[id].value == nodes[id].value
    ensures ValueOf(nodes', dict', e) == ValueOf(nodes, dict, e)
  {
    if id: Id :| Holds(nodes, dict, e, id) {
      ValueAt(nodes, d, dict, e, id);
      ValueAt(nodes', d, dict', e, id);
    }
  }

  // ---------------------------------------------------------------- one node changes

  /** The counter or the value of a node changes. */
  predicate Renewed(nodes: Nodes, nodes': Nodes, id: Id)
  {
    id in nodes && id in nodes' && nodes' == nodes[id := nodes'[id]]
    && nodes'[id].entry == nodes[id].entry && nodes'[id].dict == nodes[id].dict
  }

  lemma RenewKeeps(nodes: Nodes, nodes': Nodes, dicts: Dicts, mods: Modules, off: set<Id>, loose: set<Id>, id: Id)
    requires IndexesOk(nodes, dicts, mods, off, loose) && Renewed(nodes, nodes', id)
    ensures IndexesOk(nodes', dicts, mods, off, loose)
    ensures SameBut(nodes, dicts, nodes', dicts, nodes[id].dict, nodes[id].entry)
    ensures nodes'[id].value == nodes[id].value || !Stored(nodes, dicts, id) ==> forall d, e :: ValueIn(nodes', dicts, d, e) == ValueIn(nodes, dicts, d, e)
    ensures Stored(nodes, dicts, id) ==> ValueIn(nodes', dicts, nodes[id].dict, nodes[id].entry) == nodes'[id].value
  {
    forall d <- dicts ensures TreeOk(nodes', d, dicts[d]) {
      assert TreeOk(nodes, d, dicts[d]);
      assert Entries(nodes', dicts[d].tree) == Entries(nodes, dicts[d].tree);
    }
    forall m <- mods ensures ListOk(nodes', dicts, m, mods[m], off, loose) {
      assert ListOk(nodes, dicts, m, mods[m], off, loose);
      forall k: Id ensures Stored(nodes', dicts, k) <==> Stored(nodes, dicts, k) {
      }
    }
    forall d, e | d in dicts && (d != nodes[id].dict || e != nodes[id].entry || nodes'[id].value == nodes[id].value || !Stored(nodes, dicts, id))
      ensures ValueIn(nodes', dicts, d, e) == ValueIn(nodes, dicts, d, e)
    {
      assert TreeOk(nodes, d, dicts[d]);
      ValueSame(nodes, dicts[d], nodes', dicts[d], d, e);
    }
    if Stored(nodes, dicts, id) {
      assert Holds(nodes', dicts[nodes[id].dict], nodes[id].entry, id);
      ValueAt(nodes', nodes[id].dict, dicts[nodes[id].dict], nodes[id].entry, id);
    }
  }

  /** A node that is not stored comes, or goes. */
  lemma LooseNodeKeeps(nodes: Nodes, dicts: Dicts, mods: Modules, off: set<Id>, loose: set<Id>, id: Id, n: Node)
    requires IndexesOk(nodes, dicts, mods, off, loose) && !Stored(nodes, dicts, id) && id !in loose
    requires id !in nodes ==> n.dict in dicts
    requires id in nodes ==> nodes[id].dict in dicts
    ensures id !in nodes ==> IndexesOk(nodes[id := n], dicts, mods, off, loose)
    ensures id !in nodes ==> forall d, e :: ValueIn(nodes[id := n], dicts, d, e) == ValueIn(nodes, dicts, d, e)
    ensures IndexesOk(nodes - {id}, dicts, mods, off, loose)
    ensures forall d, e :: ValueIn(nodes - {id}, dicts, d, e) == ValueIn(nodes, dicts, d, e)
  {
    var more, less := nodes[id := n], nodes - {id};
    forall d <- dicts ensures TreeOk(less, d, dicts[d]) && (id !in nodes ==> TreeOk(more, d, dicts[d])) && id !in dicts[d].tree {
      assert TreeOk(nodes, d, dicts[d]);
      assert id in dicts[d].tree ==> Stored(nodes, dicts, id);
      assert Entries(less, dicts[d].tree) == Entries(nodes, dicts[d].tree);
      assert Entries(more, dicts[d].tree) == Entries(nodes, dicts[d].tree);
    }
    forall m <- mods ensures ListOk(less, dicts, m, mods[m], off, loose) && (id !in nodes ==> ListOk(more, dicts, m, mods[m], off, loose)) {
      assert ListOk(nodes, dicts, m, mods[m], off, loose);
      forall k: Id | k != id ensures (Stored(less, dicts, k) <==> Stored(nodes, dicts, k)) && (Stored(more, dicts, k) <==> Stored(nodes, dicts, k)) {
      }
    }
    forall d, e | d in dicts
      ensures ValueIn(less, dicts, d, e) == ValueIn(nodes, dicts, d, e)
      ensures id !in nodes ==> ValueIn(more, dicts, d, e) == ValueIn(nodes, dicts, d, e)
    {
      assert TreeOk(nodes, d, dicts[d]);
      ValueSame(nodes, dicts[d], less, dicts[d], d, e);
      if id !in nodes {
        ValueSame(nodes, dicts[d], more, dicts[d], d, e);
      }
    }
  }

  // ---------------------------------------------------------------- the indexes change

  /** The dictionary with a node more in its tree. */
  function Grown(nodes: Nodes, dict: Dict, id: Id): Dict
    requires id in nodes && forall k <- dict.tree :: k in nodes
  {
    dict.(count := dict.count + 1, tree := InsertAt(dict.tree, Place(Entries(nodes, dict.tree), nodes[id].entry), id))
  }

  function Shrunk(dict: Dict, id: Id): Dict
    requires id in dict.tree && dict.count > 0
  {
    dict.(count := dict.count - 1, tree := RemoveAt(dict.tree, IndexOf(dict.tree, id)))
  }

  lemma GrownOk(nodes: Nodes, d: DictId, dict: Dict, id: Id)
    requires TreeOk(nodes, d, dict) && id in nodes && nodes[id].dict == d && dict.count < dict.capacity
    requires forall k: Id :: !Holds(nodes, dict, nodes[id].entry, k)
    ensures TreeOk(nodes, d, Grown(nodes, dict, id)) && Holds(nodes, Grown(nodes, dict, id), nodes[id].entry, id)
    ensures forall e: Entry, k: Id :: e != nodes[id].entry ==> (Holds(nodes, Grown(nodes, dict, id), e, k) <==> Holds(nodes, dict, e, k))
  {
    var es, e := Entries(nodes, dict.tree), nodes[id].entry;
    var k := Place(es, e);
    assert id !in dict.tree by { assert !Holds(nodes, dict, e, id); }
    assert e !in es by {
      if e in es {
        var i :| 0 <= i < |es| && es[i] == e;
        assert Holds(nodes, dict, e, dict.tree[i]);
      }
    }
    InsertSorted(es, e);
    InsertDistinct(dict.tree, k, id);
    assert Entries(nodes, InsertAt(dict.tree, k, id)) == InsertAt(es, k, e);
  }

  lemma ShrunkOk(nodes: Nodes, d: DictId, dict: Dict, id: Id)
    requires TreeOk(nodes, d, dict) && id in dict.tree
    ensures dict.count > 0 && TreeOk(nodes, d, Shrunk(dict, id)) && id !in Shrunk(dict, id).tree
    ensures forall k: Id :: k in Shrunk(dict, id).tree <==> k in dict.tree && k != id
    ensures forall e: Entry, k: Id :: e != nodes[id].entry ==> (Holds(nodes, Shrunk(dict, id), e, k) <==> Holds(nodes, dict, e, k))
    ensures forall k: Id :: !Holds(nodes, Shrunk(dict, id), nodes[id].entry, k)
  {
    var i := IndexOf(dict.tree, id);
    RemoveDistinct(dict.tree, i);
    RemoveSorted(Entries(nodes, dict.tree), i);
    assert Entries(nodes, RemoveAt(dict.tree, i)) == RemoveAt(Entries(nodes, dict.tree), i);
    forall k: Id ensures !Holds(nodes, Shrunk(dict, id), nodes[id].entry, k) {
      if Holds(nodes, Shrunk(dict, id), nodes[id].entry, k) {
        HoldsUnique(nodes, d, dict, nodes[id].entry, k, id);
      }
    }
  }

  lemma NotHeld(nodes: Nodes, dict: Dict, e: Entry)
    requires forall k: Id :: !Holds(nodes, dict, e, k)
    ensures ValueOf(nodes, dict, e) == None
  {
  }

  /** One dictionary has changed, in one entry. */
  lemma DictChanged(nodes: Nodes, dicts: Dicts, d: DictId, dict: Dict, e: Entry)
    requires d in dicts && TreeOk(nodes, d, dicts[d]) && TreeOk(nodes, d, dict)
    requires forall f: Entry, k: Id :: f != e ==> (Holds(nodes, dict, f, k) <==> Holds(nodes, dicts[d], f, k))
    ensures SameBut(nodes, dicts, nodes, dicts[d := dict], d, e)
  {
    var dicts' := dicts[d := dict];
    forall k: DictId, f: Entry | k != d || f != e ensures ValueIn(nodes, dicts', k, f) == ValueIn(nodes, dicts, k, f) {
      if k == d {
        ValueSame(nodes, dicts[d], nodes, dict, d, f);
      }
    }
  }

  lemma LinkKeeps(nodes: Nodes, dicts: Dicts, mods: Modules, id: Id)
    requires IndexesOk(nodes, dicts, mods, {}, {}) && id in nodes && nodes[id].dict in dicts && !Stored(nodes, dicts, id)
    requires nodes[id].entry.mod != SHARED ==> nodes[id].entry.mod in mods
    requires dicts[nodes[id].dict].count < dicts[nodes[id].dict].capacity
    requires forall k: Id :: !Holds(nodes, dicts[nodes[id].dict], nodes[id].entry, k)
    ensures var d, m := nodes[id].dict, nodes[id].entry.mod;
            assert TreeOk(nodes, d, dicts[d]);
            var dicts' := dicts[d := Grown(nodes, dicts[d], id)];
            var mods' := if m == SHARED then mods else mods[m := Module(mods[m].kvnodes + [id], mods[m].count + 1)];
            && IndexesOk(nodes, dicts', mods', {}, {})
            && SameBut(nodes, dicts, nodes, dicts', d, nodes[id].entry)
            && ValueIn(nodes, dicts', d, nodes[id].entry) == nodes[id].value
            && (forall k: Id :: Stored(nodes, dicts', k) <==> Stored(nodes, dicts, k) || k == id)
  {
    var d, m, e := nodes[id].dict, nodes[id].entry.mod, nodes[id].entry;
    assert TreeOk(nodes, d, dicts[d]);
    GrownOk(nodes, d, dicts[d], id);
    var dict := Grown(nodes, dicts[d], id);
    var dicts' := dicts[d := dict];
    DictChanged(nodes, dicts, d, dict, e);
    ValueAt(nodes, d, dict, e, id);
    InsertDistinct(dicts[d].tree, Place(Entries(nodes, dicts[d].tree), e), id);
    forall k: Id ensures Stored(nodes, dicts', k) <==> Stored(nodes, dicts, k) || k == id {
    }
    forall k <- mods ensures ListOk(nodes, dicts', k, if k == m then Module(mods[m].kvnodes + [id], mods[m].count + 1) else mods[k], {}, {}) {
      assert ListOk(nodes, dicts, k, mods[k], {}, {});
    }
  }

  /** A node leaves the tree, but not the list of its module, if it is still in there. */
  lemma UnlinkKeeps(nodes: Nodes, dicts: Dicts, mods: Modules, off: set<Id>, loose: set<Id>, id: Id)
    requires IndexesOk(nodes, dicts, mods, off, loose) && Stored(nodes, dicts, id)
    ensures var d := nodes[id].dict;
            && dicts[d].count > 0
            && var dicts' := dicts[d := Shrunk(dicts[d], id)];
            && IndexesOk(nodes, dicts', mods, off, if id in off then loose else loose + {id})
            && SameBut(nodes, dicts, nodes, dicts', d, nodes[id].entry)
            && ValueIn(nodes, dicts', d, nodes[id].entry) == None
            && (forall k: Id :: Stored(nodes, dicts', k) <==> Stored(nodes, dicts, k) && k != id)
  {
    var d, e := nodes[id].dict, nodes[id].entry;
    assert TreeOk(nodes, d, dicts[d]);
    ShrunkOk(nodes, d, dicts[d], id);
    var dict := Shrunk(dicts[d], id);
    var dicts' := dicts[d := dict];
    DictChanged(nodes, dicts, d, dict, e);
    NotHeld(nodes, dict, e);
    forall k: Id ensures Stored(nodes, dicts', k) <==> Stored(nodes, dicts, k) && k != id {
    }
    forall m <- mods ensures ListOk(nodes, dicts', m, mods[m], off, if id in off then loose else loose + {id}) {
      assert ListOk(nodes, dicts, m, mods[m], off, loose);
    }
  }

  /** A node leaves the list of its module. */
  lemma ListDelKeeps(nodes: Nodes, dicts: Dicts, mods: Modules, off: set<Id>, loose: set<Id>, m: Mod, id: Id)
    requires IndexesOk(nodes, dicts, mods, off, loose) && m in mods && id in mods[m].kvnodes
    ensures mods[m].count > 0
    ensures var mods' := mods[m := Module(RemoveAt(mods[m].kvnodes, IndexOf(mods[m].kvnodes, id)), mods[m].count - 1)];
            IndexesOk(nodes, dicts, mods', if Stored(nodes, dicts, id) then off + {id} else off, loose - {id})
  {
    var i := IndexOf(mods[m].kvnodes, id);
    var list := Module(RemoveAt(mods[m].kvnodes, i), mods[m].count - 1);
    var off' := if Stored(nodes, dicts, id) then off + {id} else off;
    assert ListOk(nodes, dicts, m, mods[m], off, loose);
    RemoveDistinct(mods[m].kvnodes, i);
    forall k <- mods ensures ListOk(nodes, dicts, k, if k == m then list else mods[k], off', loose - {id}) {
      assert ListOk(nodes, dicts, k, mods[k], off, loose);
    }
  }

  // ---------------------------------------------------------------- who refers to a node

  lemma HoldNodes(nodes: Nodes, dicts: Dicts, mods: Modules, hand: multiset<Id>, id: Id)
    requires NodesOk(nodes, dicts, mods, hand) && id in nodes
    ensures NodesOk(nodes[id := nodes[id].(refcount := nodes[id].refcount + 1)], dicts, mods, hand + multiset{id})
  {
    var nodes' := nodes[id := nodes[id].(refcount := nodes[id].refcount + 1)];
    forall k <- nodes' ensures NodeOk(nodes', dicts, mods, hand + multiset{id}, k) {
      assert NodeOk(nodes, dicts, mods, hand, k);
    }
  }

  lemma DropNodes(nodes: Nodes, dicts: Dicts, mods: Modules, hand: multiset<Id>, id: Id)
    requires NodesOk(nodes, dicts, mods, hand) && id in hand
    ensures id in nodes && nodes[id].refcount > 0
    ensures nodes[id].refcount == 1 ==> !Stored(nodes, dicts, id) && NodesOk(nodes - {id}, dicts, mods, hand - multiset{id})
    ensures nodes[id].refcount > 1 ==>
      NodesOk(nodes[id := nodes[id].(refcount := nodes[id].refcount - 1)], dicts, mods, hand - multiset{id})
  {
    assert NodeOk(nodes, dicts, mods, hand, id);
    var less, rest := nodes[id := nodes[id].(refcount := if nodes[id].refcount > 1 then nodes[id].refcount - 1 else 1)], nodes - {id};
    forall k <- nodes | k != id
      ensures NodeOk(less, dicts, mods, hand - multiset{id}, k) && NodeOk(rest, dicts, mods, hand - multiset{id}, k)
    {
      assert NodeOk(nodes, dicts, mods, hand, k);
    }
  }

  lemma AllocNodes(nodes: Nodes, dicts: Dicts, mods: Modules, hand: multiset<Id>, id: Id, n: Node)
    requires NodesOk(nodes, dicts, mods, hand) && id !in nodes && n.refcount == 1
    requires n.dict in dicts && (n.entry.mod != SHARED ==> n.entry.mod in mods) && id !in dicts[n.dict].tree
    ensures NodesOk(nodes[id := n], dicts, mods, hand + multiset{id})
  {
    var nodes' := nodes[id := n];
    assert id !in hand;
    forall k <- nodes' ensures NodeOk(nodes', dicts, mods, hand + multiset{id}, k) {
      if k != id {
        assert NodeOk(nodes, dicts, mods, hand, k);
      }
    }
  }

  /** The value of a node changes. */
  lemma FillNodes(nodes: Nodes, dicts: Dicts, mods: Modules, hand: multiset<Id>, id: Id, v: Value)
    requires NodesOk(nodes, dicts, mods, hand) && id in nodes
    ensures NodesOk(nodes[id := nodes[id].(value := Some(v))], dicts, mods, hand)
  {
    var nodes' := nodes[id := nodes[id].(value := Some(v))];
    forall k <- nodes' ensures NodeOk(nodes', dicts, mods, hand, k) {
      assert NodeOk(nodes, dicts, mods, hand, k);
    }
  }

  /** The reference passes from the hand to the store, or back. */
  lemma StoredNodes(nodes: Nodes, dicts: Dicts, dicts': Dicts, mods: Modules, mods': Modules, hand: multiset<Id>, hand': multiset<Id>, id: Id)
    requires NodesOk(nodes, dicts, mods, hand) && id in nodes && nodes[id].value.Some? && dicts'.Keys == dicts.Keys && mods'.Keys == mods.Keys
    requires forall k: Id :: k != id ==> (Stored(nodes, dicts', k) <==> Stored(nodes, dicts, k))
    requires (id in hand && !Stored(nodes, dicts, id) && Stored(nodes, dicts', id) && hand' == hand - multiset{id})
      || (Stored(nodes, dicts, id) && !Stored(nodes, dicts', id) && hand' == hand + multiset{id})
    ensures NodesOk(nodes, dicts', mods', hand')
  {
    forall k <- nodes ensures NodeOk(nodes, dicts', mods', hand', k) {
      assert NodeOk(nodes, dicts, mods, hand, k);
    }
  }
}
