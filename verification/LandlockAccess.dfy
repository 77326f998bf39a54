/**
 The decision procedure of fs.c: a matrix of layer masks, one mask per access right, is filled with
 the layers that restrict a right and cleared in place, rule by rule, on the way up a path.
 */
module LandlockAccess {
  import opened Basics
  import opened LandlockPolicy

  /** Layer levels in a domain start at 1. */
  predicate Levelled(rule: Rule)
  {
    forall i :: 0 <= i < |rule| ==> 1 <= rule[i].level
  }

  predicate WellFormed(dom: Domain)
  {
    1 <= |dom.handled| && forall o <- dom.rules :: Levelled(dom.rules[o]) && dom.rules[o] != []
  }

  lemma FoundLevelled(dom: Domain, d: Dentry)
    requires WellFormed(dom)
    ensures FindRule(dom, d).Some? ==> Levelled(FindRule(dom, d).value) && FindRule(dom, d).value != []
  {
    if FindRule(dom, d).Some? {
      var o: Object := d.obj.value;
      assert Levelled(dom.rules[o]);
    }
  }

  /** The masks hold, for the rights in `scope`, the layers that still forbid them after `path`. */
  ghost predicate Shows(masks: seq<Mask>, dom: Domain, scope: AccessMask, path: seq<Dentry>)
  {
    && |masks| == NUM_ACCESS_FS
    && forall r: Right :: masks[r] == if r in scope then Remaining(dom, path, r) else {}
  }

  function Cleared(mask: Mask, rule: Rule, r: Right): Mask
  {
    set l | l in mask && !RuleGrants(rule, l, r)
  }

  predicate AllEmpty(masks: seq<Mask>, request: AccessMask)
    requires |masks| == NUM_ACCESS_FS
  {
    forall r <- request :: masks[r] == {}
  }

  lemma ClearedStep(mask: Mask, rule: Rule, i: nat, r: Right)
    requires i < |rule| && Levelled(rule)
    ensures Cleared(mask, rule[..i + 1], r) ==
            if r in rule[i].access then Cleared(mask, rule[..i], r) - {rule[i].level - 1} else Cleared(mask, rule[..i], r)
  {
    forall l: nat
      ensures RuleGrants(rule[..i + 1], l, r) <==> RuleGrants(rule[..i], l, r) || (rule[i].level == l + 1 && r in rule[i].access)
    {
      if RuleGrants(rule[..i], l, r) {
        var j :| 0 <= j < |rule[..i]| && rule[..i][j].level == l + 1 && r in rule[..i][j].access;
        assert rule[..i + 1][j] == rule[..i][j];
      }
      if rule[i].level == l + 1 && r in rule[i].access {
        assert rule[..i + 1][i] == rule[i];
      }
    }
  }

  lemma ClearedWhole(mask: Mask, rule: Rule, i: nat, r: Right)
    requires i <= |rule| && Cleared(mask, rule[..i], r) == {}
    ensures Cleared(mask, rule, r) == {}
  {
    forall l | l in mask ensures RuleGrants(rule, l, r) {
      assert l !in Cleared(mask, rule[..i], r);
      var j :| 0 <= j < |rule[..i]| && rule[..i][j].level == l + 1 && r in rule[..i][j].access;
      assert rule[j] == rule[..i][j];
    }
  }

  /** unmask_layers: clear what the rule grants; the answer is whether the request is now granted. */
  method UnmaskLayers(rule: Option<Rule>, request: AccessMask, masks: array?<Mask>) returns (allowed: bool)
    requires rule.Some? ==> Levelled(rule.value) && rule.value != []
    requires masks != null ==> masks.Length == NUM_ACCESS_FS
    modifies if masks == null then {} else {masks}
    ensures masks != null ==> forall r: Right ::
              masks[r] == if rule.Some? && r in request then Cleared(old(masks[r]), rule.value, r) else old(masks[r])
    ensures allowed == (request == {} || masks == null || (rule.Some? && AllEmpty(masks[..], request)))
  {
    if request == {} || masks == null {
      return true;
    }
    if rule.None? {
      return false;
    }
    var layers := rule.value;
    allowed := false;
    for i := 0 to |layers|
      invariant forall r: Right ::
          masks[r] == if r in request then Cleared(old(masks[r]), layers[..i], r) else old(masks[r])
      invariant i == |layers| ==> !AllEmpty(masks[..], request)
    {
      var empty := UnmaskLayer(layers[i], request, masks);
      forall r: Right ensures masks[r] == if r in request then Cleared(old(masks[r]), layers[..i + 1], r) else old(masks[r]) {
        ClearedStep(old(masks[r]), layers, i, r);
      }
      if empty {
        forall r: Right | r in request ensures Cleared(old(masks[r]), layers, r) == {} {
          ClearedWhole(old(masks[r]), layers, i + 1, r);
        }
        return true;
      }
    }
    assert layers[..|layers|] == layers;
  }

  /** The inner loop of unmask_layers, over the requested access bits. */
  method UnmaskLayer(layer: Layer, request: AccessMask, masks: array<Mask>) returns (empty: bool)
    requires 1 <= layer.level && masks.Length == NUM_ACCESS_FS
    modifies masks
    ensures forall r: Right ::
              masks[r] == if r in request && r in layer.access then old(masks[r]) - {layer.level - 1} else old(masks[r])
    ensures empty == AllEmpty(masks[..], request)
  {
    empty := true;
    for bit := 0 to NUM_ACCESS_FS
      invariant forall r: Right ::
                  masks[r] == if r < bit && r in request && r in layer.access then old(masks[r]) - {layer.level - 1} else old(masks[r])
      invariant empty == forall r <- request :: r < bit ==> masks[r] == {}
    {
      if bit in request {
        if bit in layer.access {
          masks[bit] := masks[bit] - {layer.level - 1};
        }
        empty := empty && masks[bit] == {};
      }
    }
  }

  function HandledOf(dom: Domain, request: AccessMask): AccessMask
  {
    set r | r in request && exists l :: 0 <= l < |dom.handled| && Handles(dom, l, r)
  }

  /** The inner loop of init_layer_masks, over the requested access bits. */
  method InitLayer(dom: Domain, level: nat, request: AccessMask, masks: array<Mask>) returns (handled: AccessMask)
    requires level < |dom.handled| && masks.Length == NUM_ACCESS_FS
    modifies masks
    ensures forall r: Right ::
              masks[r] == if r in request && Handles(dom, level, r) then old(masks[r]) + {level} else old(masks[r])
    ensures forall r: Right :: r in handled <==> r in request && Handles(dom, level, r)
  {
    handled := {};
    for bit := 0 to NUM_ACCESS_FS
      invariant forall r: Right ::
                  masks[r] == if r < bit && r in request && Handles(dom, level, r) then old(masks[r]) + {level} else old(masks[r])
      invariant forall r: Right :: r in handled <==> r < bit && r in request && Handles(dom, level, r)
    {
      if bit in request && bit in dom.handled[level] + ACCESS_INITIALLY_DENIED {
        masks[bit] := masks[bit] + {level};
        handled := handled + {bit};
      }
    }
  }

  /** The layers below `level` that restrict `r`. */
  function HandlersBelow(dom: Domain, level: nat, r: Right): Mask
  {
    set l | 0 <= l < level && Handles(dom, l, r)
  }

  /** init_layer_masks: fill in the layers that restrict a requested right. */
  method InitLayerMasks(dom: Domain, request: AccessMask, masks: array<Mask>) returns (handled: AccessMask)
    requires masks.Length == NUM_ACCESS_FS
    modifies masks
    ensures Shows(masks[..], dom, request, [])
    ensures handled == HandledOf(dom, request)
  {
    handled := {};
    for r := 0 to NUM_ACCESS_FS
      invariant forall k :: 0 <= k < r ==> masks[k] == {}
    {
      masks[r] := {};
    }
    if request == {} {
      return;
    }
    for level := 0 to |dom.handled|
      invariant forall r: Right :: masks[r] == if r in request then HandlersBelow(dom, level, r) else {}
      invariant forall r: Right :: r in handled <==> r in request && HandlersBelow(dom, level, r) != {}
    {
      var added := InitLayer(dom, level, request, masks);
      handled := handled + added;
      assert forall r: Right :: HandlersBelow(dom, level + 1, r) ==
               HandlersBelow(dom, level, r) + (if Handles(dom, level, r) then {level} else {});
    }
    forall r: Right ensures HandlersBelow(dom, |dom.handled|, r) == Remaining(dom, [], r) {
    }
    forall r: Right ensures r in handled <==> r in HandledOf(dom, request) {
      HandlersExist(dom, r);
    }
  }

  lemma HandlersExist(dom: Domain, r: Right)
    ensures HandlersBelow(dom, |dom.handled|, r) != {} <==> exists l :: 0 <= l < |dom.handled| && Handles(dom, l, r)
  {
    if l: nat :| l < |dom.handled| && Handles(dom, l, r) {
      assert l in HandlersBelow(dom, |dom.handled|, r);
    }
  }

  /** get_handled_accesses */
  method GetHandledAccesses(dom: Domain) returns (access: AccessMask)
    requires 1 <= |dom.handled|
    ensures access == HandledOf(dom, MASK_ACCESS_FS)
  {
    access := ACCESS_INITIALLY_DENIED;
    for level := 0 to |dom.handled|
      invariant forall r: Right :: r in access <==> r in ACCESS_INITIALLY_DENIED || exists l :: 0 <= l < level && r in dom.handled[l]
    {
      access := access + dom.handled[level];
    }
    access := access * MASK_ACCESS_FS;
    forall r: Right ensures r in access <==> r in HandledOf(dom, MASK_ACCESS_FS) {
      if r in ACCESS_INITIALLY_DENIED {
        assert Handles(dom, 0, r);
      } else if l: nat :| l < |dom.handled| && r in dom.handled[l] {
        assert Handles(dom, l, r);
      }
    }
  }

  /** Of the layers that forbid `r` below both `parent` and `child`, all forbid it below `target`. */
  predicate Restricts(parent: seq<Mask>, child: seq<Mask>, target: seq<Mask>, r: Right)
    requires |parent| == |child| == |target| == NUM_ACCESS_FS
  {
    parent[r] * child[r] <= target[r]
  }

  /** no_more_access: is the destination at least as restricted as the source, and conversely for an
      exchange? Rights that only make sense for directories are ignored for files. */
  method NoMoreAccess(parent1: array<Mask>, child1: array<Mask>, child1IsDir: bool,
                      parent2: array<Mask>, child2: array?<Mask>, child2IsDir: bool) returns (ok: bool)
    requires parent1.Length == child1.Length == parent2.Length == NUM_ACCESS_FS
    requires child2 != null ==> child2.Length == NUM_ACCESS_FS
    ensures ok <==> forall r: Right ::
              && (child1IsDir || r in ACCESS_FILE ==> Restricts(parent1[..], child1[..], parent2[..], r))
              && (child2 != null && (child2IsDir || r in ACCESS_FILE) ==> Restricts(parent2[..], child2[..], parent1[..], r))
  {
    for bit := 0 to NUM_ACCESS_FS
      invariant forall r: Right :: r < bit ==>
                  && (child1IsDir || r in ACCESS_FILE ==> Restricts(parent1[..], child1[..], parent2[..], r))
                  && (child2 != null && (child2IsDir || r in ACCESS_FILE) ==> Restricts(parent2[..], child2[..], parent1[..], r))
    {
      var r: Right := bit;
      if child1IsDir || r in ACCESS_FILE {
        if (parent1[r] * child1[r]) + parent2[r] != parent2[r] {
          assert !Restricts(parent1[..], child1[..], parent2[..], r);
          return false;
        }
      }
      if child2 != null && (child2IsDir || r in ACCESS_FILE) {
        if (parent2[r] * child2[r]) + parent1[r] != parent1[r] {
          assert !Restricts(parent2[..], child2[..], parent1[..], r);
          return false;
        }
      }
    }
    return true;
  }

  /** scope_to_request: forget the rights that are not requested; is nothing forbidden any more? */
  method ScopeToRequest(request: AccessMask, masks: array<Mask>) returns (allowed: bool)
    requires masks.Length == NUM_ACCESS_FS
    modifies masks
    ensures forall r: Right :: masks[r] == if r in request then old(masks[r]) else {}
    ensures allowed == AllEmpty(masks[..], request)
  {
    for bit := 0 to NUM_ACCESS_FS
      invariant forall r: Right :: masks[r] == if r >= bit || r in request then old(masks[r]) else {}
    {
      if bit !in request {
        masks[bit] := {};
      }
    }
    allowed := forall bit: Right | 0 <= bit < NUM_ACCESS_FS :: masks[bit] == {};
  }

  /** is_eacces: is a requested right other than REFER forbidden? */
  method IsEacces(masks: array<Mask>, request: AccessMask) returns (denied: bool)
    requires masks.Length == NUM_ACCESS_FS
    ensures denied == !AllEmpty(masks[..], request - {REFER})
  {
    for bit := 0 to NUM_ACCESS_FS
      invariant forall r: Right :: r < bit && r in request - {REFER} ==> masks[r] == {}
    {
      if bit in request - {REFER} && masks[bit] != {} {
        return true;
      }
    }
    return false;
  }

  // ---------------------------------------------------------------- walking a path

  /** The masks of a walk after one more dentry; only rights that nobody handles may be left out. */
  lemma ShowsStep(before: seq<Mask>, after: seq<Mask>, dom: Domain, scope: AccessMask, path: seq<Dentry>, d: Dentry, request: AccessMask)
    requires Shows(before, dom, scope, path) && |after| == NUM_ACCESS_FS
    requires forall r: Right :: after[r] ==
               (if FindRule(dom, d).Some? && r in request then Cleared(before[r], FindRule(dom, d).value, r) else before[r])
    requires HandledOf(dom, scope) <= request
    ensures Shows(after, dom, scope, path + [d])
  {
    forall r: Right ensures after[r] == if r in scope then Remaining(dom, path + [d], r) else {} {
      RemainingStep(dom, path, d, r);
      if r in scope && r !in request {
        UnhandledFree(dom, scope, path, r);
      }
    }
  }

  lemma UnhandledFree(dom: Domain, scope: AccessMask, path: seq<Dentry>, r: Right)
    requires r in scope && r !in HandledOf(dom, scope)
    ensures Remaining(dom, path, r) == {}
  {
    if l :| l in Remaining(dom, path, r) {
      assert Handles(dom, l, r);
    }
  }

  /** Masks that are empty for what is requested and handled mean that the request is allowed. */
  lemma AllowedShown(masks: seq<Mask>, dom: Domain, scope: AccessMask, path: seq<Dentry>, request: AccessMask)
    requires Shows(masks, dom, scope, path) && request <= scope
    ensures Allowed(dom, path, request) <==> AllEmpty(masks, request * HandledOf(dom, scope))
  {
    AllowedRemaining(dom, path, request);
    forall r | r in request && r !in HandledOf(dom, scope) ensures Remaining(dom, path, r) == {} {
      UnhandledFree(dom, scope, path, r);
    }
  }

  /** At the start no handled right is granted. */
  lemma NotYetAllowed(masks: seq<Mask>, dom: Domain, request: AccessMask)
    requires Shows(masks, dom, request, []) && HandledOf(dom, request) != {}
    ensures !AllEmpty(masks, HandledOf(dom, request))
  {
    var r :| r in HandledOf(dom, request);
    var l: nat :| l < |dom.handled| && Handles(dom, l, r);
    assert l in Remaining(dom, [], r);
  }

  // ---------------------------------------------------------------- comparing two hierarchies

  /** Moving `child` from below `old` to below `new` lets no layer grant it, or anything in it, a
      right which that layer did not grant before; for a file only file rights matter. */
  ghost predicate NoGain(dom: Domain, child: Dentry, from: seq<Dentry>, to: seq<Dentry>)
  {
    forall r, l ::
      (child.IsDir() || r in ACCESS_FILE) && Handles(dom, l, r) && GrantedOn(dom, [child] + to, l, r)
      ==> GrantedOn(dom, [child] + from, l, r)
  }

  lemma NoGainExtend(dom: Domain, child: Dentry, from: seq<Dentry>, to: seq<Dentry>, rest: seq<Dentry>)
    requires NoGain(dom, child, from, to)
    ensures NoGain(dom, child, from + rest, to + rest)
  {
    forall r, l | (child.IsDir() || r in ACCESS_FILE) && Handles(dom, l, r) && GrantedOn(dom, [child] + (to + rest), l, r)
      ensures GrantedOn(dom, [child] + (from + rest), l, r)
    {
      assert [child] + (to + rest) == ([child] + to) + rest && [child] + (from + rest) == ([child] + from) + rest;
      GrantedConcat(dom, [child] + to, rest, l, r);
      GrantedConcat(dom, [child] + from, rest, l, r);
    }
  }

  /** What no_more_access compares is enough. */
  lemma RestrictsNoGain(dom: Domain, child: Dentry, from: seq<Dentry>, to: seq<Dentry>,
                        parent: seq<Mask>, own: seq<Mask>, target: seq<Mask>)
    requires Shows(parent, dom, MASK_ACCESS_FS, from) && Shows(own, dom, MASK_ACCESS_FS, [child])
    requires Shows(target, dom, MASK_ACCESS_FS, to)
    requires forall r: Right :: child.IsDir() || r in ACCESS_FILE ==> Restricts(parent, own, target, r)
    ensures NoGain(dom, child, from, to)
  {
    forall r, l | (child.IsDir() || r in ACCESS_FILE) && Handles(dom, l, r) && GrantedOn(dom, [child] + to, l, r)
      ensures GrantedOn(dom, [child] + from, l, r)
    {
      GrantedConcat(dom, [child], to, l, r);
      GrantedConcat(dom, [child], from, l, r);
      assert Restricts(parent, own, target, r);
      assert l in Remaining(dom, from, r) && l in Remaining(dom, [child], r) ==> l in Remaining(dom, to, r);
    }
  }

  /** And it is no more than what is needed: a child that gains nothing passes the comparison. */
  lemma NoGainRestricts(dom: Domain, child: Dentry, from: seq<Dentry>, to: seq<Dentry>,
                        parent: seq<Mask>, own: seq<Mask>, target: seq<Mask>, r: Right)
    requires Shows(parent, dom, MASK_ACCESS_FS, from) && Shows(own, dom, MASK_ACCESS_FS, [child])
    requires Shows(target, dom, MASK_ACCESS_FS, to)
    requires NoGain(dom, child, from, to) && (child.IsDir() || r in ACCESS_FILE)
    ensures Restricts(parent, own, target, r)
  {
    assert r in MASK_ACCESS_FS;
    forall l | l in Remaining(dom, from, r) && l in Remaining(dom, [child], r) ensures l in Remaining(dom, to, r) {
      GrantedConcat(dom, [child], to, l, r);
      GrantedConcat(dom, [child], from, l, r);
    }
  }

  /** The comparison decides exactly whether the child would gain something. */
  lemma RestrictsExactly(dom: Domain, child: Dentry, from: seq<Dentry>, to: seq<Dentry>,
                         parent: seq<Mask>, own: seq<Mask>, target: seq<Mask>)
    requires Shows(parent, dom, MASK_ACCESS_FS, from) && Shows(own, dom, MASK_ACCESS_FS, [child])
    requires Shows(target, dom, MASK_ACCESS_FS, to)
    ensures NoGain(dom, child, from, to) <==>
            forall r: Right :: child.IsDir() || r in ACCESS_FILE ==> Restricts(parent, own, target, r)
  {
    if forall r: Right :: child.IsDir() || r in ACCESS_FILE ==> Restricts(parent, own, target, r) {
      RestrictsNoGain(dom, child, from, to, parent, own, target);
    }
    if NoGain(dom, child, from, to) {
      forall r: Right | child.IsDir() || r in ACCESS_FILE ensures Restricts(parent, own, target, r) {
        NoGainRestricts(dom, child, from, to, parent, own, target, r);
      }
    }
  }

  /** A dentry without a rule decides nothing. */
  lemma NoRuleSame(dom: Domain, path: seq<Dentry>, d: Dentry, request: AccessMask)
    requires FindRule(dom, d).None?
    ensures Allowed(dom, path + [d], request) <==> Allowed(dom, path, request)
  {
    AllowedRemaining(dom, path, request);
    AllowedRemaining(dom, path + [d], request);
    forall r | r in request ensures Remaining(dom, path + [d], r) == Remaining(dom, path, r) {
      RemainingStep(dom, path, d, r);
    }
  }

  /** Masks that are empty for what may be cleared mean that all of the scope is allowed, and conversely. */
  lemma ShownExactly(masks: seq<Mask>, dom: Domain, scope: AccessMask, access: AccessMask, path: seq<Dentry>)
    requires Shows(masks, dom, scope, path) && HandledOf(dom, scope) <= access <= scope
    ensures AllEmpty(masks, access) <==> Allowed(dom, path, scope)
  {
    AllowedShown(masks, dom, scope, path, scope);
    assert scope * HandledOf(dom, scope) == HandledOf(dom, scope);
    AllowedRemaining(dom, path, scope);
  }

  /** REFER is handled by every layer, and so not allowed before anything has been visited. */
  lemma ReferHandled(dom: Domain)
    requires WellFormed(dom)
    ensures REFER in HandledOf(dom, MASK_ACCESS_FS) && !Allowed(dom, [], MASK_ACCESS_FS)
  {
    assert Handles(dom, 0, REFER) && REFER in MASK_ACCESS_FS;
    assert !GrantedOn(dom, [], 0, REFER);
  }

  /** Nothing can be gained below a path that already grants everything. */
  lemma FreeNoGain(dom: Domain, child: Dentry, from: seq<Dentry>, to: seq<Dentry>)
    requires Allowed(dom, from, MASK_ACCESS_FS)
    ensures NoGain(dom, child, from, to)
  {
    forall r, l | Handles(dom, l, r) ensures GrantedOn(dom, [child] + from, l, r) {
      assert r in MASK_ACCESS_FS;
      GrantedConcat(dom, [child], from, l, r);
    }
  }
}
