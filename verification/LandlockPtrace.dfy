/**
 Which task may trace which: ptrace.c. A tracer needs a domain that is an ancestor of the tracee's,
 so that it cannot get, through the tracee, at anything that it is denied itself.
 */
module LandlockPtrace {
  import opened Basics
  import opened LandlockPolicy
  import opened LandlockCounts
  import opened LandlockMerge
  import opened LandlockRuleset

  /** The merges that led to a task's domain; a task without a domain has none. */
  ghost function Origins(l: Landlock, dom: Option<Address>): seq<Address>
    requires dom.Some? ==> dom.value in l.rulesets
    reads l
  {
    LineOf(l.line, ParentHierarchy(l.rulesets, dom))
  }

  ghost predicate InForce(l: Landlock, dom: Option<Address>)
    reads l
  {
    dom.Some? ==> dom.value in l.rulesets && IsDomain(l.rulesets[dom.value])
  }

  /** A line ends with the hierarchy that it belongs to, and only holds older ones before it. */
  lemma {:induction false} LineEnds(rulesets: Rulesets, hiers: Hierarchies, line: map<Address, seq<Address>>, meaning: map<Address, Domain>, h: Address)
    requires Lineage(rulesets, hiers, line, meaning) && HCounted(rulesets, hiers, None) && h in hiers
    ensures h in line && line[h] != [] && line[h][|line[h]| - 1] == h
    ensures forall k <- line[h] :: k <= h
    decreases h
  {
    assert LineageOne(hiers, line, meaning, h) && HCountedOne(rulesets, hiers, None, h);
    if hiers[h].parent.Some? {
      LineEnds(rulesets, hiers, line, meaning, hiers[h].parent.value);
    }
  }

  /** One step of the walk: a line of another hierarchy is a prefix of a line iff it is one of the parent's. */
  lemma PrefixStep(rulesets: Rulesets, hiers: Hierarchies, line: map<Address, seq<Address>>, meaning: map<Address, Domain>, p: Address, h: Address)
    requires Lineage(rulesets, hiers, line, meaning) && HCounted(rulesets, hiers, None) && p in hiers && h in hiers && p != h
    ensures p in line && h in line
    ensures line[p] <= line[h] <==> hiers[h].parent.Some? && line[p] <= LineOf(line, hiers[h].parent)
  {
    LineEnds(rulesets, hiers, line, meaning, p);
    LineEnds(rulesets, hiers, line, meaning, h);
    assert LineageOne(hiers, line, meaning, h);
    if line[p] <= line[h] {
      assert |line[p]| < |line[h]|;
    }
  }

  /** domain_scope_le */
  method DomainScopeLe(l: Landlock, parent: Option<Address>, child: Option<Address>) returns (le: bool)
    requires l.Inv() && InForce(l, parent) && InForce(l, child)
    ensures le <==> Origins(l, parent) <= Origins(l, child)
  {
    if parent.None? {
      return true;
    }
    var p := l.rulesets[parent.value].hierarchy.value;
    HierarchyExists(l.rulesets, l.hiers, parent.value);
    LineEnds(l.rulesets, l.hiers, l.line, l.meaning, p);
    if child.None? {
      return false;
    }
    HierarchyExists(l.rulesets, l.hiers, child.value);
    hide Counted, HCounted, HCountedOne, Lineage, LineageOne, Typed;
    var walker := l.rulesets[child.value].hierarchy;
    while walker.Some?
      invariant walker.Some? ==> walker.value in l.hiers
      invariant l.line[p] <= Origins(l, child) <==> walker.Some? && l.line[p] <= LineOf(l.line, walker)
      decreases if walker.Some? then walker.value + 1 else 0
    {
      if walker == Some(p) {
        return true;
      }
      PrefixStep(l.rulesets, l.hiers, l.line, l.meaning, p, walker.value);
      ParentOlder(l.rulesets, l.hiers, walker.value);
      walker := l.hiers[walker.value].parent;
    }
    return false;
  }

  lemma ParentOlder(rulesets: Rulesets, hiers: Hierarchies, h: Address)
    requires HCounted(rulesets, hiers, None) && h in hiers
    ensures hiers[h].parent.Some? ==> hiers[h].parent.value in hiers && hiers[h].parent.value < h
  {
    assert HCountedOne(rulesets, hiers, None, h);
  }

  /** task_ptrace; a task is landlocked when it has a domain. */
  method TaskPtrace(l: Landlock, tracer: Option<Address>, tracee: Option<Address>) returns (permitted: bool)
    requires l.Inv() && InForce(l, tracer) && InForce(l, tracee)
    ensures permitted <==> Origins(l, tracer) <= Origins(l, tracee)
    ensures permitted && tracer.Some? ==>
      tracee.Some? && Narrower(l.rulesets[tracer.value].Policy(), l.rulesets[tracee.value].Policy())
  {
    if tracer.None? {
      return true;
    }
    permitted := DomainScopeLe(l, tracer, tracee);
    if permitted {
      HierarchyExists(l.rulesets, l.hiers, tracer.value);
      LineEnds(l.rulesets, l.hiers, l.line, l.meaning, l.rulesets[tracer.value].hierarchy.value);
      ScopeNarrows(l, tracer.value, tracee.value);
    }
  }

  lemma {:induction false} PrefixNarrows(rulesets: Rulesets, hiers: Hierarchies, line: map<Address, seq<Address>>, meaning: map<Address, Domain>,
                                         p: Address, h: Address)
    requires Lineage(rulesets, hiers, line, meaning) && HCounted(rulesets, hiers, None)
    requires p in hiers && h in hiers && LineOf(line, Some(p)) <= LineOf(line, Some(h))
    ensures p in meaning && h in meaning && Narrower(meaning[p], meaning[h])
    decreases h
  {
    assert LineageOne(hiers, line, meaning, p) && LineageOne(hiers, line, meaning, h) && HCountedOne(rulesets, hiers, None, h);
    if p != h {
      PrefixStep(rulesets, hiers, line, meaning, p, h);
      PrefixNarrows(rulesets, hiers, line, meaning, p, hiers[h].parent.value);
    }
  }

  /** Every request that a domain allows, the domains that it was derived from allow as well. */
  lemma ScopeNarrows(l: Landlock, parent: Address, child: Address)
    requires l.Inv() && InForce(l, Some(parent)) && InForce(l, Some(child))
    requires Origins(l, Some(parent)) <= Origins(l, Some(child))
    ensures Narrower(l.rulesets[parent].Policy(), l.rulesets[child].Policy())
  {
    HierarchyExists(l.rulesets, l.hiers, parent);
    HierarchyExists(l.rulesets, l.hiers, child);
    PrefixNarrows(l.rulesets, l.hiers, l.line, l.meaning, l.rulesets[parent].hierarchy.value, l.rulesets[child].hierarchy.value);
  }

  /** A new domain is below its parent, and below exactly what the parent is below; nothing that existed is below it. */
  lemma MergeScope(rulesets: Rulesets, hiers: Hierarchies, line: map<Address, seq<Address>>, meaning: map<Address, Domain>,
                   above: Option<Address>, h: Address, other: Address)
    requires Lineage(rulesets, hiers, line, meaning) && HCounted(rulesets, hiers, None)
    requires (above.Some? ==> above.value in hiers) && other in hiers && forall k <- hiers :: k < h
    ensures var line' := line[h := LineOf(line, above) + [h]];
            && LineOf(line, above) <= line'[h]
            && (LineOf(line', Some(other)) <= line'[h] <==> LineOf(line', Some(other)) <= LineOf(line', above))
            && !(line'[h] <= LineOf(line', Some(other)))
  {
    hide Lineage, HCounted, LineageOne, HCountedOne;
    LineEnds(rulesets, hiers, line, meaning, other);
    if above.Some? {
      LineEnds(rulesets, hiers, line, meaning, above.value);
    }
    PrefixSnoc(line[other], LineOf(line, above), h);
  }

  lemma PrefixSnoc(a: seq<Address>, b: seq<Address>, h: Address)
    requires h !in a
    ensures a <= b + [h] <==> a <= b
    ensures !(b + [h] <= a)
  {
    var c := b + [h];
    assert c[|b|] == h;
    assert |b| < |a| ==> a[|b|] != h;
  }
}
