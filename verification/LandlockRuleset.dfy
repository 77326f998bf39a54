/**
 Rulesets, domains and their hierarchy: ruleset.c, and landlock_append_fs_rule of fs.c.

 Allocation may fail anywhere: `memory` is how many allocations will succeed. Whatever happens, every reference counter stays exact (`Counted`,
 `HCounted`); a merge either adds one domain that means the conjunction of its two parents, or
 leaves memory as it was.
 */
module LandlockRuleset {
  import opened Basics
  import opened LandlockPolicy
  import opened LandlockAccess
  import opened LandlockMerge
  import opened LandlockCounts

  datatype Errno = OK | EINVAL | E2BIG | ENOMEM | ENOMSG

  const MAX_NUM_RULES := 0xFFFF_FFFF

  /** What user space builds and names by a file descriptor. */
  predicate IsUser(r: Ruleset)
  {
    r.hierarchy.None? && |r.handled| == 1 && UserRules(r.rules) && |r.rules| <= MAX_NUM_RULES
  }

  predicate IsDomain(r: Ruleset)
  {
    r.hierarchy.Some? && 1 <= |r.handled| <= MAX_NUM_LAYERS && DomainRules(r.rules, |r.handled|) && |r.rules| <= MAX_NUM_RULES
  }

  /** The domains that merging makes are what the decisions of LandlockWalk and LandlockHooks are about. */
  lemma DomainDecides(r: Ruleset)
    requires IsDomain(r)
    ensures WellFormed(r.Policy())
  {
    forall o <- r.rules ensures Levelled(r.rules[o]) && r.rules[o] != [] {
      assert Increasing(r.rules[o], |r.handled|);
    }
  }

  // ---------------------------------------------------------------- limits and memory

  /** insert_rule needs memory, unless it only extends a rule of a ruleset that user space builds. */
  predicate NeedsMemory(rules: map<Object, Rule>, o: Object, layers: Rule)
    requires layers != []
  {
    o !in rules || layers[0].level != 0
  }

  /** insert_rule is at a limit: no more rules, or no more layers in the rule. */
  predicate AtLimit(rules: map<Object, Rule>, o: Object, layers: Rule)
    requires layers != []
  {
    if o !in rules then |rules| >= 0xFFFF_FFFF else layers[0].level != 0 && |rules[o]| >= 16
  }

  /** How many rules a domain has in which the rules of both have been merged. */
  function Total(a: map<Object, Rule>, b: map<Object, Rule>): nat
  {
    |a.Keys + b.Keys|
  }

  /** The rule of a domain has at most one entry for each layer. */
  lemma RuleLength(rules: map<Object, Rule>, n: nat, o: Object)
    requires DomainRules(rules, n) && o in rules
    ensures |rules[o]| <= n
  {
    LevelsAtLeast(rules[o], n, |rules[o]| - 1);
  }

  lemma Subset(a: set<Object>, b: set<Object>)
    requires a <= b
    ensures |a| <= |b|
  {
    assert b == a + (b - a);
  }

  lemma StrictSubset(a: set<Object>, o: Object, b: set<Object>)
    requires a <= b && o in b && o !in a
    ensures |a| < |b|
  {
    Subset(a + {o}, b);
  }

  /** As long as rules are left to be copied, there are fewer than in the whole. */
  lemma Fewer(rules: map<Object, Rule>, todo: set<Object>, o: Object)
    requires todo <= rules.Keys && o in todo
    ensures |rules.Keys - todo| < |rules| && |rules.Keys - (todo - {o})| == |rules.Keys - todo| + 1
    ensures |Part(rules, rules.Keys - todo)| == |rules.Keys - todo| && o !in Part(rules, rules.Keys - todo)
  {
    StrictSubset(rules.Keys - todo, o, rules.Keys);
    assert rules.Keys - (todo - {o}) == rules.Keys - todo + {o};
    assert |rules.Keys| == |rules|;
    assert |Part(rules, rules.Keys - todo).Keys| == |rules.Keys - todo|;
  }

  lemma InsertedSize(rules: map<Object, Rule>, o: Object, layers: Rule)
    requires layers != [] && (o in rules ==> rules[o] != []) && !Misfit(rules, o, layers)
    ensures Inserted(rules, o, layers).Keys == rules.Keys + {o}
    ensures |Inserted(rules, o, layers)| == |rules| + Bit(o !in rules)
  {
    var after := Inserted(rules, o, layers);
    assert after.Keys == rules.Keys + {o};
    hide Inserted;
    KeysSize(rules);
    KeysSize(after);
    if o in rules {
      assert rules.Keys + {o} == rules.Keys;
    }
  }

  lemma KeysSize(rules: map<Object, Rule>)
    ensures |rules.Keys| == |rules|
  {
  }

  lemma MergedSize(above: Option<Domain>, rs: Domain)
    requires |rs.handled| == 1 && UserRules(rs.rules)
    ensures |Merged(above, rs).rules| == Total(Rules(above), rs.rules)
  {
    var rules := Merged(above, rs).rules;
    assert rules.Keys == Rules(above).Keys + rs.rules.Keys;
    KeysSize(rules);
  }

  /** How often a ruleset is referred to does not matter to what it is. */
  lemma SameType(a: Ruleset, b: Ruleset)
    requires a.(usage := b.usage) == b
    ensures (IsUser(a) <==> IsUser(b)) && (IsDomain(a) <==> IsDomain(b))
  {
  }

  ghost predicate Typed(rulesets: Rulesets)
  {
    forall id <- rulesets :: IsUser(rulesets[id]) || IsDomain(rulesets[id])
  }

  function PolicyOf(rulesets: Rulesets, parent: Option<Address>): Option<Domain>
    requires parent.Some? ==> parent.value in rulesets
  {
    if parent.Some? then Some(rulesets[parent.value].Policy()) else None
  }

  function ParentHierarchy(rulesets: Rulesets, parent: Option<Address>): Option<Address>
    requires parent.Some? ==> parent.value in rulesets
  {
    if parent.Some? then rulesets[parent.value].hierarchy else None
  }

  function LinkedTo(hiers: Hierarchies, h: Address, p: Option<Address>): Hierarchies
    requires h in hiers && (p.Some? ==> p.value in hiers)
  {
    if p.Some? then Linked(hiers, h, p.value) else hiers
  }

  /** Taking a reference to an object and giving one back changes nothing. */
  lemma GetAndPut(rulesets: Rulesets, usage: map<Object, nat>, held: map<Object, nat>, o: Object)
    requires Counted(rulesets, usage, held) && o in usage
    ensures o in Plus(usage, o) && Minus(Plus(usage, o), o) == usage
  {
    assert CountedOne(rulesets, usage, held, o);
  }

  lemma LinkedKeys(hiers: Hierarchies, h: Address, p: Option<Address>)
    requires h in hiers && (p.Some? ==> p.value in hiers)
    ensures LinkedTo(hiers, h, p).Keys == hiers.Keys
  {
  }

  lemma SomeObject(s: set<Object>)
    requires s != {}
    ensures exists o :: o in s
  {
    if forall o: Object :: o !in s {
      assert false;
    }
  }

  /** Between two states, nothing changes but the rules of `id`. */
  ghost predicate OnlyRules(before: Rulesets, after: Rulesets, id: Address)
  {
    id in before && id in after && after == before[id := before[id].(rules := after[id].rules)]
  }

  lemma OnlyRulesRefl(a: Rulesets, id: Address)
    requires id in a
    ensures OnlyRules(a, a, id)
  {
  }

  lemma OnlyRulesTwice(a: Rulesets, b: Rulesets, c: Rulesets, id: Address)
    requires OnlyRules(a, b, id) && OnlyRules(b, c, id)
    ensures OnlyRules(a, c, id)
  {
  }

  lemma OnlyRulesOthers(a: Rulesets, b: Rulesets, id: Address, other: Address)
    requires OnlyRules(a, b, id) && other in a
    ensures id in a && id in b && other in b && (other != id ==> b[other] == a[other])
    ensures b[id].handled == a[id].handled && b[id].hierarchy == a[id].hierarchy && b[id].usage == a[id].usage
  {
  }

  /** Between two states, nothing changes but the rules and the handled rights of `id`. */
  ghost predicate Only(before: Rulesets, after: Rulesets, id: Address)
  {
    && id in before && id in after && after == before[id := after[id]]
    && after[id].hierarchy == before[id].hierarchy && after[id].usage == before[id].usage
  }

  lemma OnlyTwice(a: Rulesets, b: Rulesets, c: Rulesets, id: Address)
    requires Only(a, b, id) && Only(b, c, id)
    ensures Only(a, c, id)
  {
  }

  lemma OnlyOthers(a: Rulesets, b: Rulesets, id: Address, other: Address)
    requires Only(a, b, id) && other in a
    ensures id in a && id in b && other in b && (other != id ==> b[other] == a[other])
    ensures b[id].hierarchy == a[id].hierarchy && b[id].usage == a[id].usage
  {
  }

  lemma OnlyOwners(a: Rulesets, b: Rulesets, id: Address, hiers: Hierarchies)
    requires Only(a, b, id) && HCounted(a, hiers, None)
    ensures HCounted(b, hiers, None)
  {
    SameOwners(a, b, hiers, None);
  }

  lemma OnlyRulesOnly(a: Rulesets, b: Rulesets, id: Address)
    requires OnlyRules(a, b, id)
    ensures Only(a, b, id)
  {
  }

  /** `child` has just been made, with room for one layer more than `parent`, and a hierarchy of its own. */
  ghost predicate Newborn(rulesets: Rulesets, hiers: Hierarchies, parent: Option<Address>, child: Address)
  {
    && child in rulesets && rulesets[child].rules == map[] && rulesets[child].usage == 1
    && rulesets[child].hierarchy.Some? && rulesets[child].hierarchy.value in hiers
    && hiers[rulesets[child].hierarchy.value].parent.None?
    && (parent.Some? ==>
      && parent.value in rulesets && parent.value != child && IsDomain(rulesets[parent.value])
      && rulesets[parent.value].hierarchy.value in hiers
      && rulesets[parent.value].hierarchy.value < rulesets[child].hierarchy.value)
    && |rulesets[child].handled| == |Handled(PolicyOf(rulesets, parent))| + 1
  }

  lemma NewbornRules(rulesets: Rulesets, hiers: Hierarchies, parent: Option<Address>, child: Address)
    requires Newborn(rulesets, hiers, parent, child)
    ensures DomainRules(Rules(PolicyOf(rulesets, parent)), |Handled(PolicyOf(rulesets, parent))|)
    ensures |Rules(PolicyOf(rulesets, parent))| <= MAX_NUM_RULES
  {
  }

  lemma OnlyHandled(a: Rulesets, id: Address, handled: seq<AccessMask>)
    requires id in a
    ensures Only(a, a[id := a[id].(handled := handled)], id)
  {
  }

  ghost predicate Inherited(above: Option<Domain>, c: Ruleset)
  {
    c.rules == Rules(above) && |c.handled| == |Handled(above)| + 1 && c.handled[..|Handled(above)|] == Handled(above)
  }

  // ---------------------------------------------------------------- where domains come from

  /** Whatever `c` allows, `p` allows. */
  ghost predicate Narrower(p: Domain, c: Domain)
  {
    forall path, request :: Allowed(c, path, request) ==> Allowed(p, path, request)
  }

  ghost predicate LineageOne(hiers: Hierarchies, line: map<Address, seq<Address>>, meaning: map<Address, Domain>, h: Address)
    requires h in hiers
  {
    && h in line && h in meaning
    && match hiers[h].parent {
         case None => line[h] == [h]
         case Some(p) => p in line && p in meaning && line[h] == line[p] + [h] && Narrower(meaning[p], meaning[h])
       }
  }

  /**
   `line` is the history of merges: per hierarchy, the hierarchies that it was derived from, oldest first.
   `meaning` is what its domain decided when it was made; domains do not change any more after that.
   */
  ghost predicate Lineage(rulesets: Rulesets, hiers: Hierarchies, line: map<Address, seq<Address>>, meaning: map<Address, Domain>)
  {
    && (forall h <- hiers :: LineageOne(hiers, line, meaning, h))
    && (forall id <- rulesets | rulesets[id].hierarchy.Some? ::
          rulesets[id].hierarchy.value in meaning && meaning[rulesets[id].hierarchy.value] == rulesets[id].Policy())
  }

  function LineOf(line: map<Address, seq<Address>>, h: Option<Address>): seq<Address>
  {
    if h.Some? && h.value in line then line[h.value] else []
  }

  lemma MergedNarrower(parent: Domain, rs: Domain)
    requires |rs.handled| == 1 && UserRules(rs.rules)
    requires DomainRules(parent.rules, |parent.handled|)
    ensures Narrower(parent, Merged(Some(parent), rs))
  {
    forall path, request | Allowed(Merged(Some(parent), rs), path, request) ensures Allowed(parent, path, request) {
      MergeIsConjunction(parent, rs, path, request);
    }
  }

  /** A merge adds one hierarchy to the history. */
  lemma LineageMerged(before: Rulesets, hiers: Hierarchies, line: map<Address, seq<Address>>, meaning: map<Address, Domain>,
                      parent: Option<Address>, dom: Address, d: Ruleset, h: Address)
    requires Lineage(before, hiers, line, meaning) && HCounted(before, hiers, None)
    requires dom !in before && h !in hiers && d.hierarchy == Some(h) && (forall k <- hiers :: k < h)
    requires parent.Some? ==> parent.value in before && before[parent.value].hierarchy.Some?
    requires parent.Some? ==> Narrower(before[parent.value].Policy(), d.Policy())
    ensures parent.Some? ==> before[parent.value].hierarchy.value in hiers
    ensures Lineage(before[dom := d], LinkedTo(hiers[h := Hierarchy(None, 1)], h, ParentHierarchy(before, parent)),
                    line[h := LineOf(line, ParentHierarchy(before, parent)) + [h]], meaning[h := d.Policy()])
  {
    var above := ParentHierarchy(before, parent);
    if parent.Some? {
      HierarchyExists(before, hiers, parent.value);
      assert LineageOne(hiers, line, meaning, above.value);
    }
    var hiers', line', meaning' := LinkedTo(hiers[h := Hierarchy(None, 1)], h, above), line[h := LineOf(line, above) + [h]], meaning[h := d.Policy()];
    forall k <- hiers' ensures LineageOne(hiers', line', meaning', k) {
      if k != h {
        assert LineageOne(hiers, line, meaning, k);
        assert HCountedOne(before, hiers, None, k);
      }
    }
    forall id <- before | before[id].hierarchy.Some? ensures before[id].hierarchy.value != h {
      HierarchyExists(before, hiers, id);
    }
  }

  /** What is forgotten does not matter to the rest. */
  lemma LineageLess(before: Rulesets, hiers: Hierarchies, line: map<Address, seq<Address>>, meaning: map<Address, Domain>,
                    after: Rulesets, hiers': Hierarchies)
    requires Lineage(before, hiers, line, meaning)
    requires forall h <- hiers' :: h in hiers && hiers'[h].parent == hiers[h].parent
    requires forall id <- after | after[id].hierarchy.Some? ::
      id in before && before[id].hierarchy == after[id].hierarchy && before[id].Policy() == after[id].Policy()
    ensures Lineage(after, hiers', line, meaning)
  {
    forall h <- hiers' ensures LineageOne(hiers', line, meaning, h) {
      assert LineageOne(hiers, line, meaning, h);
    }
  }

  lemma OnlyNew(before: Rulesets, empty: Rulesets, after: Rulesets, id: Address)
    requires id !in before && empty.Keys == before.Keys + {id} && empty - {id} == before && Only(empty, after, id)
    ensures after == before[id := after[id]] && after - {id} == before
  {
  }

  lemma MergedIsDomain(above: Option<Domain>, rs: Ruleset, d: Ruleset)
    requires IsUser(rs) && |Handled(above)| < MAX_NUM_LAYERS && DomainRules(Rules(above), |Handled(above)|)
    requires Total(Rules(above), rs.rules) <= MAX_NUM_RULES
    requires d.hierarchy.Some? && d.Policy() == Merged(above, rs.Policy())
    ensures IsDomain(d)
  {
    MergedRules(Rules(above), |Handled(above)|, rs.rules);
    MergedSize(above, rs.Policy());
    hide DomainRules, UserRules, AddLayer, Total;
    assert d.Policy().rules == d.rules && d.Policy().handled == d.handled;
  }

  /** A merged domain is a domain, and narrower than its parent. */
  lemma NewDomainTyped(before: Rulesets, parent: Option<Address>, ruleset: Address, dom: Address, d: Ruleset)
    requires Typed(before) && ruleset in before && IsUser(before[ruleset])
    requires parent.Some? ==> parent.value in before && IsDomain(before[parent.value])
    requires |Handled(PolicyOf(before, parent))| < MAX_NUM_LAYERS
    requires Total(Rules(PolicyOf(before, parent)), before[ruleset].rules) <= MAX_NUM_RULES
    requires d.hierarchy.Some? && d.Policy() == Merged(PolicyOf(before, parent), before[ruleset].Policy())
    ensures IsDomain(d) && Typed(before[dom := d])
    ensures parent.Some? ==> Narrower(before[parent.value].Policy(), d.Policy())
  {
    MergedIsDomain(PolicyOf(before, parent), before[ruleset], d);
    if parent.Some? {
      MergedNarrower(before[parent.value].Policy(), before[ruleset].Policy());
    }
    hide IsDomain, IsUser, Narrower;
    assert Typed(before[dom := d]);
  }

  /** While a rule is merged, the rule that is there has room for one more layer, and the rules are among those of both. */
  lemma MergeFits(before: map<Object, Rule>, src: map<Object, Rule>, done: set<Object>, level: nat, o: Object, rules: map<Object, Rule>, layers: Rule)
    requires UserRules(src) && done <= src.Keys && o in src && o !in done && 0 < level <= MAX_NUM_LAYERS && DomainRules(before, level - 1)
    requires rules == AddLayer(before, Part(src, done), level) && layers == [Layer(level, src[o][0].access)]
    requires (o in rules ==> rules[o] != []) && !Misfit(rules, o, layers)
    ensures NeedsMemory(rules, o, layers)
    ensures AtLimit(rules, o, layers) ==> Total(before, src) > MAX_NUM_RULES
    ensures !AtLimit(rules, o, layers) && |rules| <= MAX_NUM_RULES ==> |Inserted(rules, o, layers)| <= MAX_NUM_RULES
  {
    InsertedSize(rules, o, layers);
    hide Inserted;
    if o in rules {
      assert o in before && rules[o] == before[o] + [];
      RuleLength(before, level - 1, o);
    } else {
      StrictSubset(rules.Keys, o, before.Keys + src.Keys);
      KeysSize(rules);
    }
  }

  lemma UserType(r: Ruleset)
    requires IsUser(r)
    ensures |r.handled| == 1 && UserRules(r.rules) && r.hierarchy.None?
  {
  }

  lemma NewUser(r: Ruleset)
    requires r.hierarchy.None? && |r.handled| == 1 && r.rules == map[]
    ensures IsUser(r)
  {
  }

  lemma DomainType(r: Ruleset)
    requires IsDomain(r)
    ensures r.hierarchy.Some? && 1 <= |r.handled| <= MAX_NUM_LAYERS
  {
  }

  /** A rule fits into what user space builds, unless there are too many. */
  lemma UserFits(r: Ruleset, o: Object, access: AccessMask)
    requires IsUser(r)
    ensures var layers := [Layer(0, access)];
            && (o in r.rules ==> r.rules[o] != []) && !Misfit(r.rules, o, layers)
            && (NeedsMemory(r.rules, o, layers) <==> o !in r.rules)
            && (AtLimit(r.rules, o, layers) <==> o !in r.rules && |r.rules| >= 0xFFFF_FFFF)
            && (!AtLimit(r.rules, o, layers) ==> IsUser(r.(rules := Inserted(r.rules, o, layers))))
  {
    var layers := [Layer(0, access)];
    InsertedSize(r.rules, o, layers);
    AppendedUser(r.Policy(), o, access);
  }

  /** A new, empty domain is ready to be filled; what is there already stays as it is. */
  lemma Born(before: Rulesets, chain: Hierarchies, parent: Option<Address>, ruleset: Address, dom: Address, h: Address)
    requires ruleset in before && dom !in before && h !in chain && (forall k <- chain :: k < h)
    requires parent.Some? ==>
      parent.value in before && IsDomain(before[parent.value]) && before[parent.value].hierarchy.Some? && before[parent.value].hierarchy.value in chain
    ensures var n := |Handled(PolicyOf(before, parent))| + 1;
            var after, hiers := before[dom := Ruleset(map[], seq(n, _ => {}), Some(h), 1)], chain[h := Hierarchy(None, 1)];
            && Newborn(after, hiers, parent, dom) && PolicyOf(after, parent) == PolicyOf(before, parent)
            && ParentHierarchy(after, parent) == ParentHierarchy(before, parent) && after[ruleset] == before[ruleset] && dom != ruleset
            && after[dom].hierarchy == Some(h) && |after[dom].handled| == n
  {
    hide IsDomain;
  }

  /** A merged domain enters the history of merges. */
  lemma Remembered(before: Rulesets, chain: Hierarchies, line: map<Address, seq<Address>>, meaning: map<Address, Domain>,
                   parent: Option<Address>, ruleset: Address, dom: Address, d: Ruleset, h: Address)
    requires Typed(before) && Lineage(before, chain, line, meaning) && HCounted(before, chain, None)
    requires ruleset in before && IsUser(before[ruleset])
    requires parent.Some? ==> parent.value in before && IsDomain(before[parent.value]) && before[parent.value].hierarchy.Some?
    requires ParentHierarchy(before, parent).Some? ==> ParentHierarchy(before, parent).value in chain
    requires |Handled(PolicyOf(before, parent))| < MAX_NUM_LAYERS
    requires Total(Rules(PolicyOf(before, parent)), before[ruleset].rules) <= MAX_NUM_RULES
    requires dom !in before && d.hierarchy == Some(h) && h !in chain && (forall k <- chain :: k < h)
    requires d.Policy() == Merged(PolicyOf(before, parent), before[ruleset].Policy())
    ensures var above := ParentHierarchy(before, parent);
            && IsDomain(d) && Typed(before[dom := d])
            && Lineage(before[dom := d], LinkedTo(chain[h := Hierarchy(None, 1)], h, above), line[h := LineOf(line, above) + [h]], meaning[h := d.Policy()])
  {
    hide HCounted, HCountedOne, Lineage, LineageOne, Narrower, Typed, IsUser, IsDomain, AddLayer, Merged;
    NewDomainTyped(before, parent, ruleset, dom, d);
    LineageMerged(before, chain, line, meaning, parent, dom, d, h);
  }

  lemma StoredRights(rights: AccessMask, handled: AccessMask)
    ensures rights + (MASK_ACCESS_FS - (handled + ACCESS_INITIALLY_DENIED)) == Absolute(rights, handled)
  {
  }

  /** Appending a rule to what user space builds changes nothing else. */
  lemma RulesChanged(before: Rulesets, after: Rulesets, id: Address, hiers: Hierarchies, line: map<Address, seq<Address>>,
                     meaning: map<Address, Domain>, o: Object, access: AccessMask)
    requires OnlyRules(before, after, id) && Typed(before) && IsUser(before[id]) && HCounted(before, hiers, None)
    requires Lineage(before, hiers, line, meaning)
    requires (o in before[id].rules ==> before[id].rules[o] != []) && !Misfit(before[id].rules, o, [Layer(0, access)])
    requires after[id].rules == Inserted(before[id].rules, o, [Layer(0, access)])
    requires IsUser(before[id].(rules := after[id].rules))
    ensures Typed(after) && IsUser(after[id]) && HCounted(after, hiers, None) && Lineage(after, hiers, line, meaning)
    ensures after.Keys == before.Keys && after == before[id := after[id]]
    ensures after[id].Policy() == Appended(before[id].Policy(), o, access)
  {
    SameOwners(before, after, hiers, None);
    UserType(before[id]);
    hide IsUser, IsDomain, HCounted;
    LineageLess(before, hiers, line, meaning, after, hiers);
  }

  lemma AllMerged(before: map<Object, Rule>, src: map<Object, Rule>, level: nat, done: set<Object>)
    requires UserRules(src) && done == src.Keys
    ensures |AddLayer(before, Part(src, done), level)| == Total(before, src) && |done| == |src|
  {
    var all := AddLayer(before, Part(src, done), level);
    assert all.Keys == before.Keys + src.Keys && |all.Keys| == |all|;
  }

  ghost predicate AllBelow(rulesets: Rulesets, hiers: Hierarchies, next: Address)
  {
    (forall id <- rulesets :: id < next) && (forall h <- hiers :: h < next)
  }

  lemma StillBelow(a: Rulesets, b: Hierarchies, next: Address, a': Rulesets, b': Hierarchies)
    requires AllBelow(a, b, next) && a'.Keys <= a.Keys && b'.Keys <= b.Keys
    ensures AllBelow(a', b', next)
  {
  }

  class Landlock {
    var rulesets: Rulesets
    var usage: map<Object, nat>
    var hiers: Hierarchies
    var next: Address
    /** How many allocations will succeed before one fails. */
    var memory: nat
    /** The references to objects that callers hold at the moment. */
    ghost var held: map<Object, nat>
    ghost var line: map<Address, seq<Address>>
    ghost var meaning: map<Address, Domain>

    ghost predicate Fresh()
      reads this
    {
      AllBelow(rulesets, hiers, next)
    }

    ghost predicate Inv()
      reads this
    {
      && Typed(rulesets) && Fresh()
      && Counted(rulesets, usage, held) && HCounted(rulesets, hiers, None)
      && Lineage(rulesets, hiers, line, meaning)
    }

    constructor (memory: nat)
      ensures Inv() && rulesets == map[] && hiers == map[] && usage == map[] && held == map[]
    {
      rulesets, usage, hiers, next := map[], map[], map[], 0;
      this.memory := memory;
      held, line, meaning := map[], map[], map[];
    }

    /** Others take memory, or give it back. */
    method Reclaim(memory: nat)
      requires Inv()
      modifies `memory
      ensures Inv() && this.memory == memory
    {
      this.memory := memory;
    }

    /** kzalloc */
    method Alloc() returns (ok: bool)
      modifies `memory
      ensures ok <==> old(memory) > 0
      ensures old(memory) == memory + if ok then 1 else 0
    {
      ok := memory > 0;
      if ok {
        memory := memory - 1;
      }
    }

    method GetObject(o: Object)
      modifies `usage
      ensures usage == Plus(old(usage), o)
    {
      usage := usage[o := (if o in usage then usage[o] else 0) + 1];
    }

    /** landlock_put_object; an object that is not used any more goes away. */
    method PutObject(o: Object)
      requires o in usage
      modifies `usage
      ensures usage == Minus(old(usage), o)
    {
      if usage[o] <= 1 {
        usage := usage - {o};
      } else {
        usage := usage[o := usage[o] - 1];
      }
    }

    /** create_ruleset */
    method CreateRuleset(numLayers: nat) returns (id: Option<Address>)
      requires Counted(rulesets, usage, held) && HCounted(rulesets, hiers, None) && Fresh()
      modifies `rulesets, `next, `memory
      ensures (id.Some? <==> old(memory) >= 1) && old(memory) == memory + if id.Some? then 1 else 0
      ensures id.None? ==> rulesets == old(rulesets) && next == old(next)
      ensures id.Some? ==>
        && id.value !in old(rulesets)
        && rulesets == old(rulesets)[id.value := Ruleset(map[], seq(numLayers, _ => {}), None, 1)]
      ensures Counted(rulesets, usage, held) && HCounted(rulesets, hiers, None) && Fresh()
    {
      var ok := Alloc();
      if !ok {
        return None;
      }
      id := Some(next);
      rulesets, next := rulesets[next := Ruleset(map[], seq(numLayers, _ => {}), None, 1)], next + 1;
      Renamed(old(rulesets), id.value, rulesets[id.value], usage, held);
      SameOwners(old(rulesets), rulesets, hiers, None);
    }

    /** landlock_create_ruleset */
    method CreateUserRuleset(access: AccessMask) returns (err: Errno, id: Address)
      requires Inv()
      modifies `rulesets, `next, `memory
      ensures Inv()
      ensures err in {OK, ENOMSG, ENOMEM} && (err == ENOMSG <==> access == {}) && (err == ENOMEM <==> access != {} && old(memory) == 0)
      ensures err == OK ==> id !in old(rulesets) && rulesets == old(rulesets)[id := Ruleset(map[], [access], None, 1)]
      ensures err != OK ==> rulesets == old(rulesets)
    {
      hide Counted, HCounted, Lineage, AllBelow, IsUser, IsDomain;
      id := 0;
      if access == {} {
        return ENOMSG, 0;
      }
      var created := CreateRuleset(1);
      if created.None? {
        return ENOMEM, 0;
      }
      err, id := OK, created.value;
      var before := rulesets;
      rulesets := rulesets[id := rulesets[id].(handled := [access])];
      Renamed(before, id, rulesets[id], usage, held);
      SameOwners(before, rulesets, hiers, None);
      NewUser(rulesets[id]);
      StillBelow(before, hiers, next, rulesets, hiers);
      LineageLess(old(rulesets), hiers, line, meaning, rulesets, hiers);
    }

    /** insert_rule. The walk down the red-black tree is a lookup in `rules`; create_rule is inlined. */
    method InsertRule(id: Address, o: Object, layers: Rule) returns (err: Errno)
      requires id in rulesets && o in usage && layers != []
      requires o in rulesets[id].rules ==> rulesets[id].rules[o] != []
      requires Counted(rulesets, usage, held)
      modifies `rulesets, `usage, `memory
      ensures Counted(rulesets, usage, held) && old(usage).Keys <= usage.Keys
      ensures err == EINVAL <==> Misfit(old(rulesets)[id].rules, o, layers)
      ensures err == E2BIG <==> !Misfit(old(rulesets)[id].rules, o, layers) && AtLimit(old(rulesets)[id].rules, o, layers)
      ensures err == ENOMEM <==>
        && !Misfit(old(rulesets)[id].rules, o, layers) && !AtLimit(old(rulesets)[id].rules, o, layers)
        && NeedsMemory(old(rulesets)[id].rules, o, layers) && old(memory) == 0
      ensures old(memory) == memory + if err == OK && NeedsMemory(old(rulesets)[id].rules, o, layers) then 1 else 0
      ensures OnlyRules(old(rulesets), rulesets, id)
      ensures err == OK ==> rulesets[id].rules == Inserted(old(rulesets)[id].rules, o, layers)
      ensures err != OK ==> rulesets == old(rulesets) && usage == old(usage)
      ensures err in {OK, EINVAL, E2BIG, ENOMEM}
    {
      hide Counted, CountedOne, Minus;
      var r := rulesets[id];
      if o in r.rules {
        var rule := r.rules[o];
        if |layers| != 1 {
          return EINVAL;
        }
        if layers[0].level == 0 {
          if |rule| != 1 {
            return EINVAL;
          }
          if rule[0].level != 0 {
            return EINVAL;
          }
          rulesets := rulesets[id := r.(rules := r.rules[o := [Layer(rule[0].level, rule[0].access + layers[0].access)]])];
          Renamed(old(rulesets), id, rulesets[id], usage, held);
          return OK;
        }
        if rule[0].level == 0 {
          return EINVAL;
        }
        if |rule| >= MAX_NUM_LAYERS {
          return E2BIG;
        }
        var ok := Alloc();
        if !ok {
          return ENOMEM;
        }
        GetAndPut(rulesets, usage, held, o);
        GetObject(o);
        rulesets := rulesets[id := r.(rules := r.rules[o := rule + layers])];
        PutObject(o);
        assert usage == old(usage);
        Renamed(old(rulesets), id, rulesets[id], usage, held);
        return OK;
      }
      if |r.rules| >= MAX_NUM_RULES {
        return E2BIG;
      }
      var ok := Alloc();
      if !ok {
        return ENOMEM;
      }
      NamedMore(rulesets, id, r.(rules := r.rules[o := layers]), o, usage, held);
      GetObject(o);
      rulesets := rulesets[id := r.(rules := r.rules[o := layers])];
      return OK;
    }

    /** put_hierarchy; `owners` are the rulesets without the one that is being freed. */
    method PutHierarchy(h: Option<Address>, ghost owners: Rulesets)
      requires HCounted(owners, hiers, h)
      modifies `hiers
      ensures hiers == Released(old(hiers), h) && HCounted(owners, hiers, None)
    {
      hide HCounted, HCountedOne;
      var walker := h;
      while walker.Some?
        invariant HCounted(owners, hiers, walker)
        invariant Released(hiers, walker) == Released(old(hiers), h)
        decreases |hiers|, walker.Some?
      {
        var k := walker.value;
        ExtraCounted(owners, hiers, k);
        if hiers[k].usage == 1 {
          FreeStep(owners, hiers, k);
          walker := hiers[k].parent;
          hiers := hiers - {k};
        } else {
          StopStep(owners, hiers, k);
          hiers := hiers[k := hiers[k].(usage := hiers[k].usage - 1)];
          walker := None;
        }
      }
    }

    /** The loop of free_ruleset over the rules: free_rule for each of them. */
    method FreeRules(id: Address)
      requires id in rulesets && Counted(rulesets, usage, held)
      modifies `rulesets, `usage
      ensures rulesets == old(rulesets)[id := old(rulesets)[id].(rules := map[])]
      ensures Counted(rulesets, usage, held)
    {
      hide Counted, CountedOne;
      while rulesets[id].rules.Keys != {}
        invariant id in rulesets && rulesets == old(rulesets)[id := old(rulesets)[id].(rules := rulesets[id].rules)]
        invariant Counted(rulesets, usage, held)
        decreases |rulesets[id].rules.Keys|
      {
        var r, names := rulesets[id], rulesets[id].rules.Keys;
        SomeObject(names);
        var o :| o in names;
        var less := r.(rules := r.rules - {o});
        NamedLess(rulesets, id, less, o, usage, held);
        PutObject(o);
        assert less.rules.Keys == names - {o};
        rulesets := rulesets[id := less];
      }
    }

    /** free_ruleset */
    method FreeRuleset(id: Address)
      requires id in rulesets && Counted(rulesets, usage, held) && HCounted(rulesets, hiers, None)
      modifies `rulesets, `usage, `hiers
      ensures rulesets == old(rulesets) - {id} && hiers == Released(old(hiers), old(rulesets)[id].hierarchy)
      ensures Counted(rulesets, usage, held) && HCounted(rulesets, hiers, None)
    {
      hide Counted, CountedOne, HCounted, HCountedOne, Released;
      ghost var others := rulesets - {id};
      Disowned(rulesets, hiers, id);
      FreeRules(id);
      assert rulesets - {id} == others;
      PutHierarchy(rulesets[id].hierarchy, others);
      Forgotten(rulesets, id, usage, held);
      rulesets := rulesets - {id};
    }

    /** landlock_put_ruleset */
    method PutRuleset(id: Address)
      requires id in rulesets && Counted(rulesets, usage, held) && HCounted(rulesets, hiers, None)
      modifies `rulesets, `usage, `hiers
      ensures Counted(rulesets, usage, held) && HCounted(rulesets, hiers, None) && (old(Inv()) ==> Inv())
      ensures old(rulesets)[id].usage <= 1 ==>
        rulesets == old(rulesets) - {id} && hiers == Released(old(hiers), old(rulesets)[id].hierarchy)
      ensures old(rulesets)[id].usage > 1 ==>
        rulesets == old(rulesets)[id := old(rulesets)[id].(usage := old(rulesets)[id].usage - 1)] && hiers == old(hiers)
    {
      hide Counted, HCounted, Released, Lineage, IsUser, IsDomain;
      SameType(rulesets[id], rulesets[id].(usage := if rulesets[id].usage > 0 then rulesets[id].usage - 1 else 0));
      if rulesets[id].usage <= 1 {
        ReleasedParents(hiers, rulesets[id].hierarchy);
        FreeRuleset(id);
      } else {
        rulesets := rulesets[id := rulesets[id].(usage := rulesets[id].usage - 1)];
        Renamed(old(rulesets), id, rulesets[id], usage, held);
        SameOwners(old(rulesets), rulesets, hiers, None);
      }
      if old(Inv()) {
        LineageLess(old(rulesets), old(hiers), line, meaning, rulesets, hiers);
      }
    }

    /** landlock_append_fs_rule; `o` is the object of the inode, which get_inode_object may have to create. */
    method AppendFsRule(id: Address, isDir: bool, rights: AccessMask, o: Object) returns (err: Errno)
      requires Inv() && id in rulesets && IsUser(rulesets[id])
      modifies `rulesets, `usage, `held, `memory
      ensures Inv() && held == old(held)
      ensures err in {OK, EINVAL, E2BIG, ENOMEM} && (err == EINVAL <==> !isDir && !(rights <= {EXECUTE, WRITE_FILE, READ_FILE, TRUNCATE}))
      ensures var full := o !in old(rulesets)[id].rules && |old(rulesets)[id].rules| >= 0xFFFF_FFFF;
              var needed := (if o in old(usage) then 0 else 1) + if o in old(rulesets)[id].rules || full then 0 else 1;
              && (err == ENOMEM <==> err != EINVAL && old(memory) < needed)
              && (err == E2BIG <==> err != EINVAL && full && old(memory) >= needed)
      ensures err == OK ==>
        && rulesets.Keys == old(rulesets).Keys && IsUser(rulesets[id])
        && rulesets == old(rulesets)[id := rulesets[id]]
        && rulesets[id].Policy() == Appended(old(rulesets)[id].Policy(), o, Absolute(rights, old(rulesets)[id].handled[0]))
      ensures err != OK ==> rulesets == old(rulesets) && usage == old(usage)
    {
      hide Counted, HCounted, Lineage, Typed, OnlyRules, IsUser, IsDomain, Misfit, NeedsMemory, AtLimit, Inserted, Appended, Absolute;
      UserType(rulesets[id]);
      if !isDir && rights + ACCESS_FILE != ACCESS_FILE {
        return EINVAL;
      }
      var access := rights + (MASK_ACCESS_FS - (rulesets[id].handled[0] + ACCESS_INITIALLY_DENIED));
      StoredRights(rights, rulesets[id].handled[0]);
      if o !in usage {
        var ok := Alloc();
        if !ok {
          return ENOMEM;
        }
      }
      UserFits(rulesets[id], o, access);
      HeldMore(rulesets, o, usage, held);
      GetObject(o);
      held := Plus(held, o);
      err := InsertRule(id, o, [Layer(0, access)]);
      HeldLess(rulesets, o, usage, old(held));
      PutObject(o);
      held := old(held);
      if err != OK {
        CountsUnique(rulesets, held, usage, old(usage));
      } else {
        RulesChanged(old(rulesets), rulesets, id, hiers, line, meaning, o, access);
      }
    }

    /** inherit_ruleset */
    method InheritRuleset(parent: Option<Address>, child: Address) returns (err: Errno)
      requires Counted(rulesets, usage, held) && HCounted(rulesets, hiers, None)
      requires Newborn(rulesets, hiers, parent, child)
      modifies `rulesets, `usage, `hiers, `memory
      ensures Counted(rulesets, usage, held) && HCounted(rulesets, hiers, None)
      ensures err == if old(memory) < |Rules(PolicyOf(old(rulesets), parent))| then ENOMEM else OK
      ensures err == OK ==> memory == old(memory) - |Rules(PolicyOf(old(rulesets), parent))|
      ensures Only(old(rulesets), rulesets, child)
      ensures err != OK ==> hiers == old(hiers)
      ensures err == OK ==> hiers == LinkedTo(old(hiers), old(rulesets)[child].hierarchy.value, ParentHierarchy(old(rulesets), parent))
      ensures err == OK ==> Inherited(PolicyOf(old(rulesets), parent), rulesets[child])
    {
      hide Counted, HCounted, DomainRules;
      if parent.None? {
        return OK;
      }
      err := CopyRules(parent.value, child);
      OnlyRulesOnly(old(rulesets), rulesets, child);
      OnlyOwners(old(rulesets), rulesets, child, hiers);
      if err != OK {
        return;
      }
      var c, p := rulesets[child], rulesets[parent.value];
      ghost var before := rulesets;
      rulesets := rulesets[child := c.(handled := p.handled + c.handled[|p.handled|..])];
      Renamed(before, child, rulesets[child], usage, held);
      OnlyOwners(before, rulesets, child, hiers);
      var h, above := c.hierarchy.value, p.hierarchy.value;
      HierarchyExists(rulesets, hiers, parent.value);
      LinkParent(rulesets, hiers, h, above);
      hiers := hiers[above := hiers[above].(usage := hiers[above].usage + 1)];
      hiers := hiers[h := hiers[h].(parent := p.hierarchy)];
    }

    /** The loop of inherit_ruleset, in whichever order it meets the rules. */
    method CopyRules(parent: Address, child: Address) returns (err: Errno)
      requires Counted(rulesets, usage, held)
      requires child in rulesets && rulesets[child].rules == map[]
      requires parent in rulesets && parent != child && DomainRules(rulesets[parent].rules, |rulesets[parent].handled|)
      requires |rulesets[parent].rules| <= MAX_NUM_RULES
      modifies `rulesets, `usage, `memory
      ensures Counted(rulesets, usage, held)
      ensures err == if old(memory) < |old(rulesets)[parent].rules| then ENOMEM else OK
      ensures err == OK ==> memory == old(memory) - |old(rulesets)[parent].rules|
      ensures OnlyRules(old(rulesets), rulesets, child)
      ensures err == OK ==> rulesets[child].rules == old(rulesets)[parent].rules
    {
      hide Counted, DomainRules, OnlyRules;
      err := OK;
      var rules := rulesets[parent].rules;
      var todo := rules.Keys;
      OnlyRulesRefl(rulesets, child);
      while todo != {}
        invariant Counted(rulesets, usage, held) && todo <= rules.Keys && err == OK
        invariant OnlyRules(old(rulesets), rulesets, child) && parent in rulesets && rulesets[parent].rules == rules
        invariant child in rulesets && rulesets[child].rules == Part(rules, rules.Keys - todo)
        invariant old(memory) == memory + |rules.Keys - todo|
        decreases |todo|
      {
        SomeObject(todo);
        var o :| o in todo;
        NamedExists(rulesets, parent, o, usage, held);
        DomainRule(rules, |old(rulesets)[parent].handled|, o);
        Fewer(rules, todo, o);
        ghost var before := rulesets;
        err := InsertRule(child, o, rules[o]);
        OnlyRulesTwice(old(rulesets), before, rulesets, child);
        if err != OK {
          return;
        }
        OnlyRulesOthers(before, rulesets, child, parent);
        PartStep(rules, todo, o);
        todo := todo - {o};
      }
      assert rules.Keys - todo == rules.Keys;
    }

    /** One turn of the loop of merge_ruleset; the rules of `todo` have not been met before it. */
    method MergeRule(dst: Address, rules: map<Object, Rule>, o: Object, level: nat, ghost before: map<Object, Rule>, ghost todo: set<Object>)
      returns (err: Errno)
      requires Counted(rulesets, usage, held) && o in usage && dst in rulesets
      requires UserRules(rules) && todo <= rules.Keys && o in todo && 0 < level && DomainRules(before, level - 1)
      requires rulesets[dst].rules == AddLayer(before, Part(rules, rules.Keys - todo), level)
      requires level <= MAX_NUM_LAYERS && |rulesets[dst].rules| <= MAX_NUM_RULES
      modifies `rulesets, `usage, `memory
      ensures Counted(rulesets, usage, held)
      ensures err in {OK, E2BIG, ENOMEM} && OnlyRules(old(rulesets), rulesets, dst)
      ensures err == E2BIG ==> Total(before, rules) > MAX_NUM_RULES
      ensures err == ENOMEM ==> old(memory) == 0
      ensures err == OK ==> old(memory) == memory + 1 && dst in rulesets && |rulesets[dst].rules| <= MAX_NUM_RULES
      ensures err == OK ==> dst in rulesets && rulesets[dst].rules == AddLayer(before, Part(rules, rules.Keys - (todo - {o})), level)
    {
      hide *;
      UserRule(rules, o);
      var layers := [Layer(level, rules[o][0].access)];
      InsertAddLayer(before, level - 1, rules, rules.Keys - todo, o);
      PartStep(rules, todo, o);
      MergeFits(before, rules, rules.Keys - todo, level, o, rulesets[dst].rules, layers);
      err := InsertRule(dst, o, layers);
      OnlyRulesOthers(old(rulesets), rulesets, dst, dst);
    }

    /** The loop of merge_ruleset, in whichever order it meets the rules; the new layer is the topmost one of `dst`. */
    method MergeRules(dst: Address, src: Address) returns (err: Errno)
      requires Counted(rulesets, usage, held)
      requires dst in rulesets && src in rulesets && dst != src
      requires 1 <= |rulesets[dst].handled| && DomainRules(rulesets[dst].rules, |rulesets[dst].handled| - 1)
      requires UserRules(rulesets[src].rules)
      requires |rulesets[dst].handled| <= MAX_NUM_LAYERS && |rulesets[dst].rules| <= MAX_NUM_RULES
      modifies `rulesets, `usage, `memory
      ensures Counted(rulesets, usage, held)
      ensures err in {OK, E2BIG, ENOMEM} && OnlyRules(old(rulesets), rulesets, dst)
      ensures err == E2BIG ==> Total(old(rulesets)[dst].rules, old(rulesets)[src].rules) > MAX_NUM_RULES
      ensures err == ENOMEM ==> old(memory) < |old(rulesets)[src].rules|
      ensures err == OK ==>
        Total(old(rulesets)[dst].rules, old(rulesets)[src].rules) <= MAX_NUM_RULES && old(memory) >= |old(rulesets)[src].rules|
      ensures err == OK ==>
        rulesets[dst].rules == AddLayer(old(rulesets)[dst].rules, old(rulesets)[src].rules, |old(rulesets)[dst].handled|)
    {
      hide *;
      err := OK;
      var rules, level := rulesets[src].rules, |rulesets[dst].handled|;
      ghost var before := rulesets[dst].rules;
      var todo := rules.Keys;
      PartEnds(before, rules, level);
      OnlyRulesRefl(rulesets, dst);
      while todo != {}
        invariant Counted(rulesets, usage, held) && todo <= rules.Keys && err == OK
        invariant OnlyRules(old(rulesets), rulesets, dst) && src in rulesets && rulesets[src].rules == rules
        invariant dst in rulesets && rulesets[dst].rules == AddLayer(before, Part(rules, rules.Keys - todo), level)
        invariant |rulesets[dst].rules| <= MAX_NUM_RULES && old(memory) == memory + |rules.Keys - todo|
        decreases |todo|
      {
        SomeObject(todo);
        var o :| o in todo;
        NamedExists(rulesets, src, o, usage, held);
        Fewer(rules, todo, o);
        ghost var was := rulesets;
        err := MergeRule(dst, rules, o, level, before, todo);
        OnlyRulesTwice(old(rulesets), was, rulesets, dst);
        if err != OK {
          OnlyRulesOthers(old(rulesets), rulesets, dst, dst);
          return;
        }
        OnlyRulesOthers(was, rulesets, dst, src);
        todo := todo - {o};
      }
      AllMerged(before, rules, level, rules.Keys - todo);
    }

    /** merge_ruleset: the new layer handles what the ruleset handles, and gets its rules. */
    method MergeInto(dst: Address, src: Address, ghost above: Option<Domain>, ghost rs: Domain) returns (err: Errno)
      requires Counted(rulesets, usage, held) && HCounted(rulesets, hiers, None)
      requires dst in rulesets && src in rulesets && dst != src && IsUser(rulesets[src]) && rs == rulesets[src].Policy()
      requires Inherited(above, rulesets[dst]) && DomainRules(Rules(above), |Handled(above)|)
      requires |rulesets[dst].handled| <= MAX_NUM_LAYERS && |Rules(above)| <= MAX_NUM_RULES
      modifies `rulesets, `usage, `memory
      ensures Counted(rulesets, usage, held) && HCounted(rulesets, hiers, None)
      ensures err in {OK, E2BIG, ENOMEM} && Only(old(rulesets), rulesets, dst)
      ensures err == E2BIG ==> Total(Rules(above), rs.rules) > MAX_NUM_RULES
      ensures err == ENOMEM ==> old(memory) < |rs.rules|
      ensures err == OK ==> Total(Rules(above), rs.rules) <= MAX_NUM_RULES && old(memory) >= |rs.rules|
      ensures err == OK ==> rulesets[dst].Policy() == Merged(above, rs)
    {
      hide Counted, HCounted, DomainRules, UserRules, AddLayer, Only, Total, IsDomain;
      var d := rulesets[dst];
      var handled := d.handled[|d.handled| - 1 := rulesets[src].handled[0]];
      rulesets := rulesets[dst := d.(handled := handled)];
      Renamed(old(rulesets), dst, rulesets[dst], usage, held);
      OnlyHandled(old(rulesets), dst, handled);
      ghost var stacked := rulesets;
      err := MergeRules(dst, src);
      OnlyRulesOnly(stacked, rulesets, dst);
      OnlyTwice(old(rulesets), stacked, rulesets, dst);
      OnlyOwners(old(rulesets), rulesets, dst, hiers);
      OnlyRulesOthers(stacked, rulesets, dst, dst);
      assert handled == Handled(above) + rs.handled;
    }

    /** The middle part of landlock_merge_ruleset: fills the new domain `dom`. */
    method Fill(parent: Option<Address>, src: Address, dom: Address, ghost policy: Option<Domain>, ghost rs: Domain, ghost linked: Hierarchies)
      returns (err: Errno)
      requires Counted(rulesets, usage, held) && HCounted(rulesets, hiers, None)
      requires Newborn(rulesets, hiers, parent, dom)
      requires src in rulesets && dom != src && IsUser(rulesets[src]) && |rulesets[dom].handled| <= MAX_NUM_LAYERS
      requires policy == PolicyOf(rulesets, parent) && rs == rulesets[src].Policy()
      requires linked == LinkedTo(hiers, rulesets[dom].hierarchy.value, ParentHierarchy(rulesets, parent))
      modifies `rulesets, `usage, `hiers, `memory
      ensures Counted(rulesets, usage, held) && HCounted(rulesets, hiers, None)
      ensures err in {OK, E2BIG, ENOMEM} && Only(old(rulesets), rulesets, dom)
      ensures err == E2BIG ==> Total(Rules(policy), rs.rules) > MAX_NUM_RULES
      ensures err == ENOMEM ==> old(memory) < |Rules(policy)| + |rs.rules|
      ensures err == OK ==> Total(Rules(policy), rs.rules) <= MAX_NUM_RULES && old(memory) >= |Rules(policy)| + |rs.rules|
      ensures hiers == linked || (err != OK && hiers == old(hiers))
      ensures err == OK ==> rulesets[dom].Policy() == Merged(policy, rs)
    {
      hide Counted, HCounted, DomainRules, Only, Total, Merged, LinkedTo, UserRules;
      NewbornRules(rulesets, hiers, parent, dom);
      err := InheritRuleset(parent, dom);
      OnlyOthers(old(rulesets), rulesets, dom, src);
      if err == OK {
        ghost var inherited := rulesets;
        err := MergeInto(dom, src, policy, rs);
        OnlyTwice(old(rulesets), inherited, rulesets, dom);
      }
    }

    /** The first part of landlock_merge_ruleset: an empty domain with a hierarchy of its own, or nothing. */
    method NewDomain(numLayers: nat) returns (dom: Option<Address>, h: Address)
      requires Counted(rulesets, usage, held) && HCounted(rulesets, hiers, None) && Fresh()
      modifies `rulesets, `usage, `hiers, `next, `memory
      ensures Counted(rulesets, usage, held) && HCounted(rulesets, hiers, None) && Fresh()
      ensures (dom.Some? <==> old(memory) >= 2) && (dom.Some? ==> memory == old(memory) - 2)
      ensures dom.None? ==> rulesets == old(rulesets) && hiers == old(hiers)
      ensures dom.Some? ==>
        && dom.value !in old(rulesets) && h !in old(hiers) && (forall k <- old(hiers) :: k < h)
        && rulesets == old(rulesets)[dom.value := Ruleset(map[], seq(numLayers, _ => {}), Some(h), 1)]
        && hiers == old(hiers)[h := Hierarchy(None, 1)]
    {
      hide Counted, HCounted, Released;
      h := 0;
      dom := CreateRuleset(numLayers);
      if dom.None? {
        return;
      }
      ghost var bare := rulesets;
      var ok := Alloc();
      if !ok {
        PutRuleset(dom.value);
        assert Released(old(hiers), None) == old(hiers) by { ReleasedNone(old(hiers)); }
        return None, 0;
      }
      h := next;
      hiers, next := hiers[h := Hierarchy(None, 1)], next + 1;
      rulesets := rulesets[dom.value := rulesets[dom.value].(hierarchy := Some(h))];
      NewHierarchy(bare, dom.value, rulesets[dom.value], old(hiers), h);
      Renamed(bare, dom.value, rulesets[dom.value], usage, held);
    }

    /** The end of landlock_merge_ruleset after a failure: everything is as it was before the new domain was made. */
    method PutNew(dom: Address, h: Address, ghost before: Rulesets, ghost chain: Hierarchies, ghost counts: map<Object, nat>,
                  ghost above: Option<Address>)
      requires Counted(rulesets, usage, held) && HCounted(rulesets, hiers, None)
      requires Counted(before, counts, held) && HCounted(before, chain, None)
      requires dom in rulesets && rulesets - {dom} == before && rulesets[dom].usage == 1 && rulesets[dom].hierarchy == Some(h)
      requires h !in chain && (above.Some? ==> above.value in chain && chain[above.value].usage > 0)
      requires hiers == chain[h := Hierarchy(None, 1)] || hiers == LinkedTo(chain[h := Hierarchy(None, 1)], h, above)
      modifies `rulesets, `usage, `hiers
      ensures rulesets == before && hiers == chain && usage == counts
    {
      hide Counted, HCounted, HCountedOne, Lineage, LineageOne, Typed, Released;
      ReleaseLinked(chain, h, None);
      ReleaseLinked(chain, h, above);
      PutRuleset(dom);
      CountsUnique(rulesets, held, usage, counts);
    }

    /** Fills the new domain, or puts it. */
    method FillOrPut(parent: Option<Address>, src: Address, dom: Address, h: Address, ghost before: Rulesets, ghost chain: Hierarchies,
                     ghost counts: map<Object, nat>, ghost policy: Option<Domain>, ghost rs: Domain, ghost above: Option<Address>)
      returns (err: Errno)
      requires Counted(rulesets, usage, held) && HCounted(rulesets, hiers, None)
      requires Counted(before, counts, held) && HCounted(before, chain, None)
      requires Newborn(rulesets, hiers, parent, dom) && dom !in before && rulesets.Keys == before.Keys + {dom} && rulesets - {dom} == before
      requires rulesets[dom].hierarchy == Some(h) && hiers == chain[h := Hierarchy(None, 1)] && h !in chain
      requires src in rulesets && dom != src && IsUser(rulesets[src]) && |rulesets[dom].handled| <= MAX_NUM_LAYERS
      requires policy == PolicyOf(rulesets, parent) && rs == rulesets[src].Policy() && above == ParentHierarchy(rulesets, parent)
      requires above.Some? ==> above.value in chain && chain[above.value].usage > 0
      modifies `rulesets, `usage, `hiers, `memory
      ensures err in {OK, E2BIG, ENOMEM} && rulesets.Keys <= old(rulesets).Keys && hiers.Keys <= old(hiers).Keys
      ensures err == E2BIG ==> Total(Rules(policy), rs.rules) > MAX_NUM_RULES
      ensures err == ENOMEM ==> old(memory) < |Rules(policy)| + |rs.rules|
      ensures err == OK ==> Total(Rules(policy), rs.rules) <= MAX_NUM_RULES && old(memory) >= |Rules(policy)| + |rs.rules|
      ensures Counted(rulesets, usage, held) && HCounted(rulesets, hiers, None)
      ensures err != OK ==> rulesets == before && hiers == chain && usage == counts
      ensures err == OK ==>
        && dom in rulesets && rulesets == before[dom := rulesets[dom]] && rulesets[dom].usage == 1 && rulesets[dom].hierarchy == Some(h)
        && hiers == LinkedTo(chain[h := Hierarchy(None, 1)], h, above) && rulesets[dom].Policy() == Merged(policy, rs)
    {
      hide Counted, HCounted, Only, IsUser, IsDomain, Released, Total, Merged, Linked;
      ghost var empty, linked := rulesets, LinkedTo(hiers, h, above);
      err := Fill(parent, src, dom, policy, rs, linked);
      OnlyOthers(empty, rulesets, dom, dom);
      OnlyNew(before, empty, rulesets, dom);
      LinkedKeys(old(hiers), h, above);
      if err != OK {
        PutNew(dom, h, before, chain, counts, above);
        assert before.Keys <= empty.Keys && chain.Keys <= old(hiers).Keys;
      } else {
        assert rulesets.Keys == empty.Keys;
      }
    }

    /** The same, as a child of `parent`, with one layer more. */
    method NewChild(parent: Option<Address>, ruleset: Address) returns (dom: Option<Address>, h: Address)
      requires Counted(rulesets, usage, held) && HCounted(rulesets, hiers, None) && Fresh() && ruleset in rulesets
      requires parent.Some? ==> parent.value in rulesets && IsDomain(rulesets[parent.value])
      requires parent.Some? ==> rulesets[parent.value].hierarchy.Some? && rulesets[parent.value].hierarchy.value in hiers
      modifies `rulesets, `usage, `hiers, `next, `memory
      ensures Counted(rulesets, usage, held) && HCounted(rulesets, hiers, None) && Fresh()
      ensures (dom.Some? <==> old(memory) >= 2) && (dom.Some? ==> memory == old(memory) - 2)
      ensures dom.None? ==> rulesets == old(rulesets) && hiers == old(hiers)
      ensures dom.Some? ==>
        && dom.value !in old(rulesets) && h !in old(hiers) && (forall k <- old(hiers) :: k < h) && hiers == old(hiers)[h := Hierarchy(None, 1)]
        && rulesets.Keys == old(rulesets).Keys + {dom.value} && rulesets - {dom.value} == old(rulesets)
        && rulesets[dom.value].hierarchy == Some(h) && rulesets[dom.value].usage == 1
        && |rulesets[dom.value].handled| == |Handled(PolicyOf(old(rulesets), parent))| + 1
        && Newborn(rulesets, hiers, parent, dom.value) && rulesets[ruleset] == old(rulesets)[ruleset] && dom.value != ruleset
        && PolicyOf(rulesets, parent) == PolicyOf(old(rulesets), parent) && ParentHierarchy(rulesets, parent) == ParentHierarchy(old(rulesets), parent)
    {
      hide Counted, HCounted, IsDomain;
      var numLayers := if parent.Some? then |rulesets[parent.value].handled| + 1 else 1;
      assert numLayers == |Handled(PolicyOf(rulesets, parent))| + 1;
      dom, h := NewDomain(numLayers);
      if dom.Some? {
        Born(old(rulesets), old(hiers), parent, ruleset, dom.value, h);
        hide Newborn;
      }
    }

    /** The second part of landlock_merge_ruleset: makes the new domain, and fills it. */
    method MakeDomain(parent: Option<Address>, ruleset: Address) returns (err: Errno, dom: Address)
      requires Inv() && ruleset in rulesets && parent != Some(ruleset) && IsUser(rulesets[ruleset])
      requires parent.Some? ==> parent.value in rulesets && IsDomain(rulesets[parent.value])
      requires |Handled(PolicyOf(rulesets, parent))| < MAX_NUM_LAYERS
      modifies this
      ensures Inv() && held == old(held)
      ensures var policy, more := PolicyOf(old(rulesets), parent), old(rulesets)[ruleset].rules;
              var total, needed := Total(Rules(policy), more), 2 + |Rules(policy)| + |more|;
              && err in {OK, E2BIG, ENOMEM} && (err == E2BIG ==> total > MAX_NUM_RULES) && (err == ENOMEM ==> old(memory) < needed)
              && (err == OK ==> total <= MAX_NUM_RULES && old(memory) >= needed)
      ensures err != OK ==>
        rulesets == old(rulesets) && hiers == old(hiers) && usage == old(usage) && line == old(line) && meaning == old(meaning)
      ensures err == OK ==>
        && dom !in old(rulesets) && dom in rulesets && rulesets == old(rulesets)[dom := rulesets[dom]]
        && IsDomain(rulesets[dom]) && rulesets[dom].usage == 1
        && rulesets[dom].Policy() == Merged(PolicyOf(old(rulesets), parent), old(rulesets)[ruleset].Policy())
      ensures err == OK ==>
        var h, above := rulesets[dom].hierarchy.value, ParentHierarchy(old(rulesets), parent);
        && h !in old(hiers) && (above.Some? ==> above.value in old(hiers))
        && hiers == LinkedTo(old(hiers)[h := Hierarchy(None, 1)], h, above)
        && line == old(line)[h := LineOf(old(line), above) + [h]]
    {
      hide Counted, HCounted, HCountedOne, Lineage, LineageOne, Narrower, Only, Typed, IsUser, IsDomain, DomainRules, UserRules, AddLayer, Released, AllBelow;
      dom := 0;
      UserType(rulesets[ruleset]);
      if parent.Some? {
        DomainType(rulesets[parent.value]);
        HierarchyExists(rulesets, hiers, parent.value);
      }
      ghost var policy, rs, above := PolicyOf(rulesets, parent), rulesets[ruleset].Policy(), ParentHierarchy(rulesets, parent);
      var made, h := NewChild(parent, ruleset);
      if made.None? {
        CountsUnique(rulesets, held, usage, old(usage));
        return ENOMEM, 0;
      }
      dom := made.value;
      hide Newborn, LinkedTo, Linked, Total, Merged;
      ghost var empty, alone := rulesets, hiers;
      err := FillOrPut(parent, ruleset, dom, h, old(rulesets), old(hiers), old(usage), policy, rs, above);
      StillBelow(empty, alone, next, rulesets, hiers);
      if err == OK {
        Remembered(old(rulesets), old(hiers), line, meaning, parent, ruleset, dom, rulesets[dom], h);
        line, meaning := line[h := LineOf(line, above) + [h]], meaning[h := rulesets[dom].Policy()];
      }
    }

    /** landlock_merge_ruleset */
    method MergeRuleset(parent: Option<Address>, ruleset: Address) returns (err: Errno, dom: Address)
      requires Inv() && ruleset in rulesets && (parent != Some(ruleset) ==> IsUser(rulesets[ruleset]))
      requires parent.Some? ==> parent.value in rulesets && IsDomain(rulesets[parent.value])
      modifies this
      ensures Inv() && held == old(held)
      ensures err in {OK, EINVAL, E2BIG, ENOMEM} && (err == EINVAL <==> parent == Some(ruleset))
      ensures err != EINVAL ==>
        var policy, more := PolicyOf(old(rulesets), parent), old(rulesets)[ruleset].rules;
        var tooBig, needed := |Handled(policy)| >= 16 || Total(Rules(policy), more) > 0xFFFF_FFFF, 2 + |Rules(policy)| + |more|;
        && (|Handled(policy)| >= 16 ==> err == E2BIG)
        && (err == OK <==> !tooBig && old(memory) >= needed)
        && (err == E2BIG ==> tooBig) && (err == ENOMEM ==> old(memory) < needed)
      ensures err != OK ==>
        rulesets == old(rulesets) && hiers == old(hiers) && usage == old(usage) && line == old(line) && meaning == old(meaning)
      ensures err == OK ==>
        && dom !in old(rulesets) && dom in rulesets && rulesets == old(rulesets)[dom := rulesets[dom]]
        && IsDomain(rulesets[dom]) && rulesets[dom].usage == 1
        && rulesets[dom].Policy() == Merged(PolicyOf(old(rulesets), parent), old(rulesets)[ruleset].Policy())
      ensures err == OK ==>
        var h, above := rulesets[dom].hierarchy.value, ParentHierarchy(old(rulesets), parent);
        && h !in old(hiers) && (above.Some? ==> above.value in old(hiers))
        && hiers == LinkedTo(old(hiers)[h := Hierarchy(None, 1)], h, above)
        && line == old(line)[h := LineOf(old(line), above) + [h]]
    {
      hide Counted, HCounted, HCountedOne, Lineage, LineageOne, Narrower, Only, Typed, IsUser, IsDomain, DomainRules, UserRules, AddLayer, Released;
      if parent == Some(ruleset) {
        return EINVAL, 0;
      }
      if parent.Some? {
        DomainType(rulesets[parent.value]);
        if |rulesets[parent.value].handled| >= MAX_NUM_LAYERS {
          return E2BIG, 0;
        }
      }
      err, dom := MakeDomain(parent, ruleset);
    }
  }
}
