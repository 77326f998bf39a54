/**
 Who refers to what in Landlock's memory: objects are used by rules and by the callers that hold them
 (object.c), hierarchies by the domain that owns them and by the hierarchies below (ruleset.c).
 Kernel memory is a table per kind of structure, indexed by address.
 */
module LandlockCounts {
  import opened Basics
  import opened LandlockPolicy

  type Address = nat

  /** `usage` is the reference counter of the ruleset itself. */
  datatype Ruleset = Ruleset(rules: map<Object, Rule>, handled: seq<AccessMask>, hierarchy: Option<Address>, usage: nat)
  {
    function Policy(): Domain { Domain(handled, rules) }
  }

  datatype Hierarchy = Hierarchy(parent: Option<Address>, usage: nat)

  type Rulesets = map<Address, Ruleset>

  type Hierarchies = map<Address, Hierarchy>

  // ---------------------------------------------------------------- objects

  /** The rulesets with a rule for `o`. */
  function Naming(rulesets: Rulesets, o: Object): set<Address>
  {
    set id | id in rulesets && o in rulesets[id].rules
  }

  function Held(held: map<Object, nat>, o: Object): nat
  {
    if o in held then held[o] else 0
  }

  function References(rulesets: Rulesets, held: map<Object, nat>, o: Object): nat
  {
    |Naming(rulesets, o)| + Held(held, o)
  }

  ghost predicate CountedOne(rulesets: Rulesets, usage: map<Object, nat>, held: map<Object, nat>, o: Object)
  {
    if o in usage then usage[o] == References(rulesets, held, o) && usage[o] > 0 else References(rulesets, held, o) == 0
  }

  /** Exactly the objects that something refers to exist, and their counters are exact. */
  ghost predicate Counted(rulesets: Rulesets, usage: map<Object, nat>, held: map<Object, nat>)
  {
    forall o: Object :: CountedOne(rulesets, usage, held, o)
  }

  function Plus(usage: map<Object, nat>, o: Object): map<Object, nat>
  {
    usage[o := Held(usage, o) + 1]
  }

  function Minus(usage: map<Object, nat>, o: Object): map<Object, nat>
  {
    if Held(usage, o) <= 1 then usage - {o} else usage[o := usage[o] - 1]
  }

  lemma NamingUpdate(rulesets: Rulesets, id: Address, r: Ruleset, o: Object)
    ensures |Naming(rulesets[id := r], o)| + Bit(id in Naming(rulesets, o)) == |Naming(rulesets, o)| + Bit(o in r.rules)
  {
    var before, after := Naming(rulesets, o), Naming(rulesets[id := r], o);
    if o in r.rules {
      assert after == before + {id};
    } else {
      assert after == before - {id};
    }
  }

  lemma NamingRemove(rulesets: Rulesets, id: Address, o: Object)
    ensures |Naming(rulesets - {id}, o)| + Bit(id in Naming(rulesets, o)) == |Naming(rulesets, o)|
  {
    assert Naming(rulesets - {id}, o) == Naming(rulesets, o) - {id};
  }

  /** The counters say nothing that the references do not. */
  lemma CountsUnique(rulesets: Rulesets, held: map<Object, nat>, a: map<Object, nat>, b: map<Object, nat>)
    requires Counted(rulesets, a, held) && Counted(rulesets, b, held)
    ensures a == b
  {
    forall o: Object ensures o in a <==> o in b
      ensures o in a ==> a[o] == b[o]
    {
      assert CountedOne(rulesets, a, held, o) && CountedOne(rulesets, b, held, o);
    }
  }

  /** The rules of one ruleset change; `added` and `removed` say which objects it names now or no more. */
  lemma Renamed(rulesets: Rulesets, id: Address, r: Ruleset, usage: map<Object, nat>, held: map<Object, nat>)
    requires Counted(rulesets, usage, held)
    requires r.rules.Keys == (if id in rulesets then rulesets[id].rules.Keys else {})
    ensures Counted(rulesets[id := r], usage, held)
  {
    var rulesets' := rulesets[id := r];
    forall o: Object ensures CountedOne(rulesets', usage, held, o) {
      assert CountedOne(rulesets, usage, held, o);
      NamingUpdate(rulesets, id, r, o);
    }
  }

  lemma NamedMore(rulesets: Rulesets, id: Address, r: Ruleset, o: Object, usage: map<Object, nat>, held: map<Object, nat>)
    requires Counted(rulesets, usage, held)
    requires id in rulesets && o !in rulesets[id].rules && r.rules.Keys == rulesets[id].rules.Keys + {o}
    ensures Counted(rulesets[id := r], Plus(usage, o), held)
  {
    var rulesets', usage' := rulesets[id := r], Plus(usage, o);
    forall k: Object ensures CountedOne(rulesets', usage', held, k) {
      assert CountedOne(rulesets, usage, held, k);
      NamingUpdate(rulesets, id, r, k);
    }
  }

  lemma NamedLess(rulesets: Rulesets, id: Address, r: Ruleset, o: Object, usage: map<Object, nat>, held: map<Object, nat>)
    requires Counted(rulesets, usage, held)
    requires id in rulesets && o in rulesets[id].rules && r.rules.Keys == rulesets[id].rules.Keys - {o}
    ensures o in usage && Counted(rulesets[id := r], Minus(usage, o), held)
  {
    assert CountedOne(rulesets, usage, held, o) && id in Naming(rulesets, o);
    var rulesets', usage' := rulesets[id := r], Minus(usage, o);
    forall k: Object ensures CountedOne(rulesets', usage', held, k) {
      assert CountedOne(rulesets, usage, held, k);
      NamingUpdate(rulesets, id, r, k);
    }
  }

  lemma NamedExists(rulesets: Rulesets, id: Address, o: Object, usage: map<Object, nat>, held: map<Object, nat>)
    requires Counted(rulesets, usage, held) && id in rulesets && o in rulesets[id].rules
    ensures o in usage
  {
    assert CountedOne(rulesets, usage, held, o) && id in Naming(rulesets, o);
  }

  lemma Forgotten(rulesets: Rulesets, id: Address, usage: map<Object, nat>, held: map<Object, nat>)
    requires Counted(rulesets, usage, held) && id in rulesets && rulesets[id].rules == map[]
    ensures Counted(rulesets - {id}, usage, held)
  {
    forall k: Object ensures CountedOne(rulesets - {id}, usage, held, k) {
      assert CountedOne(rulesets, usage, held, k);
      NamingRemove(rulesets, id, k);
    }
  }

  lemma HeldMore(rulesets: Rulesets, o: Object, usage: map<Object, nat>, held: map<Object, nat>)
    requires Counted(rulesets, usage, held)
    ensures Counted(rulesets, Plus(usage, o), Plus(held, o))
  {
    forall k: Object ensures CountedOne(rulesets, Plus(usage, o), Plus(held, o), k) {
      assert CountedOne(rulesets, usage, held, k);
    }
  }

  lemma HeldLess(rulesets: Rulesets, o: Object, usage: map<Object, nat>, held: map<Object, nat>)
    requires Counted(rulesets, usage, Plus(held, o))
    ensures o in usage && Counted(rulesets, Minus(usage, o), held)
  {
    forall k: Object ensures CountedOne(rulesets, Minus(usage, o), held, k) {
      assert CountedOne(rulesets, usage, Plus(held, o), k);
    }
    assert CountedOne(rulesets, usage, Plus(held, o), o);
  }

  // ---------------------------------------------------------------- hierarchies

  /** The domains that own `h`. */
  function Owners(rulesets: Rulesets, h: Address): set<Address>
  {
    set id | id in rulesets && rulesets[id].hierarchy == Some(h)
  }

  /** The hierarchies right below `h`. */
  function Below(hiers: Hierarchies, h: Address): set<Address>
  {
    set k | k in hiers && hiers[k].parent == Some(h)
  }

  ghost predicate HCountedOne(rulesets: Rulesets, hiers: Hierarchies, extra: Option<Address>, h: Address)
    requires h in hiers
  {
    && hiers[h].usage == |Owners(rulesets, h)| + |Below(hiers, h)| + Bit(extra == Some(h)) > 0
    && (hiers[h].parent.Some? ==> hiers[h].parent.value in hiers && hiers[h].parent.value < h)
  }

  /** Counters of hierarchies are exact, up to one reference `extra` that is on its way out. */
  ghost predicate HCounted(rulesets: Rulesets, hiers: Hierarchies, extra: Option<Address>)
  {
    && (forall h <- hiers :: HCountedOne(rulesets, hiers, extra, h))
    && (forall id <- rulesets :: rulesets[id].hierarchy.Some? ==> rulesets[id].hierarchy.value in hiers)
    && (extra.Some? ==> extra.value in hiers)
  }

  /** put_hierarchy: gives up a reference, and frees upwards as long as nothing else refers to it. */
  function Released(hiers: Hierarchies, h: Option<Address>): Hierarchies
    decreases |hiers|
  {
    if h.None? || h.value !in hiers then hiers
    else
      var k := h.value;
      if hiers[k].usage <= 1 then Released(hiers - {k}, hiers[k].parent)
      else hiers[k := hiers[k].(usage := hiers[k].usage - 1)]
  }

  lemma HierarchyExists(rulesets: Rulesets, hiers: Hierarchies, id: Address)
    requires HCounted(rulesets, hiers, None) && id in rulesets && rulesets[id].hierarchy.Some?
    ensures rulesets[id].hierarchy.value in hiers && hiers[rulesets[id].hierarchy.value].usage > 0
  {
    assert HCountedOne(rulesets, hiers, None, rulesets[id].hierarchy.value);
  }

  lemma ReleasedNone(hiers: Hierarchies)
    ensures Released(hiers, None) == hiers
  {
  }

  lemma SameOwners(a: Rulesets, b: Rulesets, hiers: Hierarchies, extra: Option<Address>)
    requires HCounted(a, hiers, extra)
    requires forall id <- a :: a[id].hierarchy.Some? ==> id in b && b[id].hierarchy == a[id].hierarchy
    requires forall id <- b :: b[id].hierarchy.Some? ==> id in a && b[id].hierarchy == a[id].hierarchy
    ensures HCounted(b, hiers, extra)
  {
    forall h <- hiers ensures HCountedOne(b, hiers, extra, h) {
      assert HCountedOne(a, hiers, extra, h);
      assert Owners(a, h) == Owners(b, h);
    }
  }

  /** A new domain gets a hierarchy of its own. */
  lemma NewHierarchy(rulesets: Rulesets, id: Address, r: Ruleset, hiers: Hierarchies, h: Address)
    requires HCounted(rulesets, hiers, None) && h !in hiers
    requires id in rulesets && rulesets[id].hierarchy == None && r.hierarchy == Some(h)
    ensures HCounted(rulesets[id := r], hiers[h := Hierarchy(None, 1)], None)
  {
    var hiers', rulesets' := hiers[h := Hierarchy(None, 1)], rulesets[id := r];
    forall k <- hiers' ensures HCountedOne(rulesets', hiers', None, k) {
      if k == h {
        assert Owners(rulesets', h) == {id};
        assert Below(hiers', h) == {} by {
          forall c <- hiers ensures hiers[c].parent != Some(h) { assert HCountedOne(rulesets, hiers, None, c); }
        }
      } else {
        assert HCountedOne(rulesets, hiers, None, k);
        assert Owners(rulesets', k) == Owners(rulesets, k);
        assert Below(hiers', k) == Below(hiers, k);
      }
    }
  }

  function Linked(hiers: Hierarchies, h: Address, p: Address): Hierarchies
    requires h in hiers && p in hiers
  {
    hiers[p := hiers[p].(usage := hiers[p].usage + 1)][h := hiers[h].(parent := Some(p))]
  }

  lemma LinkBelow(hiers: Hierarchies, h: Address, p: Address, k: Address)
    requires h in hiers && p in hiers && hiers[h].parent == None
    ensures |Below(Linked(hiers, h, p), k)| == |Below(hiers, k)| + Bit(k == p)
  {
    if k == p {
      assert Below(Linked(hiers, h, p), k) == Below(hiers, k) + {h};
    } else {
      assert Below(Linked(hiers, h, p), k) == Below(hiers, k);
    }
  }

  lemma LinkParent(rulesets: Rulesets, hiers: Hierarchies, h: Address, p: Address)
    requires HCounted(rulesets, hiers, None)
    requires h in hiers && p in hiers && p < h && hiers[h].parent == None
    ensures HCounted(rulesets, Linked(hiers, h, p), None)
  {
    hide Owners, Below;
    var hiers' := Linked(hiers, h, p);
    forall k <- hiers' ensures HCountedOne(rulesets, hiers', None, k) {
      assert HCountedOne(rulesets, hiers, None, k);
      LinkBelow(hiers, h, p, k);
    }
  }

  /** A domain goes away, and its reference to the hierarchy is still to be given up. */
  lemma Disowned(rulesets: Rulesets, hiers: Hierarchies, id: Address)
    requires HCounted(rulesets, hiers, None) && id in rulesets
    ensures HCounted(rulesets - {id}, hiers, rulesets[id].hierarchy)
  {
    var extra := rulesets[id].hierarchy;
    forall h <- hiers ensures HCountedOne(rulesets - {id}, hiers, extra, h) {
      assert HCountedOne(rulesets, hiers, None, h);
      if extra == Some(h) {
        assert Owners(rulesets, h) == Owners(rulesets - {id}, h) + {id};
      } else {
        assert Owners(rulesets, h) == Owners(rulesets - {id}, h);
      }
    }
  }

  lemma ExtraCounted(rulesets: Rulesets, hiers: Hierarchies, h: Address)
    requires HCounted(rulesets, hiers, Some(h))
    ensures h in hiers && hiers[h].usage > 0
  {
    assert HCountedOne(rulesets, hiers, Some(h), h);
  }

  lemma BelowFreed(hiers: Hierarchies, h: Address, k: Address)
    requires h in hiers
    ensures |Below(hiers - {h}, k)| + Bit(hiers[h].parent == Some(k)) == |Below(hiers, k)|
  {
    if hiers[h].parent == Some(k) {
      assert Below(hiers, k) == Below(hiers - {h}, k) + {h};
    } else {
      assert Below(hiers, k) == Below(hiers - {h}, k);
    }
  }

  /** A hierarchy with one reference, which is on its way out, is referred to by nothing else. */
  lemma LastReference(rulesets: Rulesets, hiers: Hierarchies, h: Address)
    requires HCounted(rulesets, hiers, Some(h)) && h in hiers && hiers[h].usage == 1
    ensures forall id <- rulesets :: rulesets[id].hierarchy != Some(h)
    ensures forall k <- hiers :: hiers[k].parent != Some(h)
  {
    assert HCountedOne(rulesets, hiers, Some(h), h);
    assert Owners(rulesets, h) == {} && Below(hiers, h) == {};
    forall id <- rulesets ensures rulesets[id].hierarchy != Some(h) {
      assert id !in Owners(rulesets, h);
    }
    forall k <- hiers ensures hiers[k].parent != Some(h) {
      assert k !in Below(hiers, h);
    }
  }

  lemma FreeStep(rulesets: Rulesets, hiers: Hierarchies, h: Address)
    requires HCounted(rulesets, hiers, Some(h)) && h in hiers && hiers[h].usage == 1
    ensures HCounted(rulesets, hiers - {h}, hiers[h].parent)
  {
    LastReference(rulesets, hiers, h);
    hide Owners, Below;
    var extra, hiers' := hiers[h].parent, hiers - {h};
    assert HCountedOne(rulesets, hiers, Some(h), h);
    forall k <- hiers' ensures HCountedOne(rulesets, hiers', extra, k) {
      assert HCountedOne(rulesets, hiers, Some(h), k);
      BelowFreed(hiers, h, k);
    }
  }

  lemma StopStep(rulesets: Rulesets, hiers: Hierarchies, h: Address)
    requires HCounted(rulesets, hiers, Some(h)) && h in hiers && hiers[h].usage > 1
    ensures HCounted(rulesets, hiers[h := hiers[h].(usage := hiers[h].usage - 1)], None)
  {
    var hiers' := hiers[h := hiers[h].(usage := hiers[h].usage - 1)];
    forall k <- hiers' ensures HCountedOne(rulesets, hiers', None, k) {
      assert HCountedOne(rulesets, hiers, Some(h), k);
      assert Below(hiers', k) == Below(hiers, k);
    }
  }

  lemma {:induction false} ReleasedCounted(rulesets: Rulesets, hiers: Hierarchies, h: Option<Address>)
    requires HCounted(rulesets, hiers, h)
    ensures HCounted(rulesets, Released(hiers, h), None)
    decreases |hiers|
  {
    hide HCounted, HCountedOne;
    if h.Some? {
      ExtraCounted(rulesets, hiers, h.value);
      if hiers[h.value].usage == 1 {
        FreeStep(rulesets, hiers, h.value);
        ReleasedCounted(rulesets, hiers - {h.value}, hiers[h.value].parent);
      } else {
        StopStep(rulesets, hiers, h.value);
      }
    }
  }

  lemma {:induction false} ReleasedParents(hiers: Hierarchies, h: Option<Address>)
    ensures Released(hiers, h).Keys <= hiers.Keys
    ensures forall k <- Released(hiers, h) :: Released(hiers, h)[k].parent == hiers[k].parent
    decreases |hiers|
  {
    if h.Some? && h.value in hiers && hiers[h.value].usage <= 1 {
      ReleasedParents(hiers - {h.value}, hiers[h.value].parent);
    }
  }

  /** What remains counted is exactly what something still refers to. */
  lemma StillReferred(rulesets: Rulesets, hiers: Hierarchies, after: Hierarchies)
    requires HCounted(rulesets, after, None)
    ensures forall k <- hiers :: k in after <==> Owners(rulesets, k) != {} || Below(after, k) != {}
  {
    forall k <- hiers ensures k in after <==> Owners(rulesets, k) != {} || Below(after, k) != {} {
      if k in after {
        assert HCountedOne(rulesets, after, None, k);
      } else {
        assert Owners(rulesets, k) == {};
        forall c <- after ensures after[c].parent != Some(k) { assert HCountedOne(rulesets, after, None, c); }
        assert Below(after, k) == {};
      }
    }
  }

  /** Giving up a reference frees exactly the hierarchies that nothing refers to any more. */
  lemma ReleasedExact(rulesets: Rulesets, hiers: Hierarchies, h: Option<Address>)
    requires HCounted(rulesets, hiers, h)
    ensures HCounted(rulesets, Released(hiers, h), None)
    ensures Released(hiers, h).Keys <= hiers.Keys
    ensures forall k <- Released(hiers, h) :: Released(hiers, h)[k].parent == hiers[k].parent
    ensures forall k <- hiers :: k in Released(hiers, h) <==> Owners(rulesets, k) != {} || Below(Released(hiers, h), k) != {}
  {
    ReleasedCounted(rulesets, hiers, h);
    ReleasedParents(hiers, h);
    StillReferred(rulesets, hiers, Released(hiers, h));
  }

  /** Giving up a hierarchy that was just created and linked undoes the link. */
  lemma ReleaseLinked(hiers: Hierarchies, h: Address, p: Option<Address>)
    requires h !in hiers && (p.Some? ==> p.value in hiers && hiers[p.value].usage > 0)
    ensures var created := hiers[h := Hierarchy(None, 1)];
            Released(if p.Some? then Linked(created, h, p.value) else created, Some(h)) == hiers
  {
    var created := hiers[h := Hierarchy(None, 1)];
    assert created - {h} == hiers;
    if p.Some? {
      var more := hiers[p.value := hiers[p.value].(usage := hiers[p.value].usage + 1)];
      assert Linked(created, h, p.value) - {h} == more;
      assert Released(more, p) == hiers;
    }
  }
}
