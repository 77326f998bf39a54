/**
 The path walk of fs.c, for simple requests and for renames or links, which compare two hierarchies.
 What it decides is stated exactly in both cases.
 */
module LandlockWalk {
  import opened Basics
  import opened LandlockPolicy
  import opened LandlockAccess

  datatype End = RealRoot | Disconnected(internal: bool)

  /** A path as the walk sees it: its dentries from the bottom up, how the walk ends, and whether the
      path is on a pseudo file system that is never restricted. */
  datatype Walk = Walk(steps: seq<Dentry>, end: End, private: bool)
  {
    /** Paths that the walk lets through without a decision by the rules. */
    predicate Exempt() { private || end == End.Disconnected(true) }
  }

  /** What the masks show when the walk starts: the rights in `scope`, after `pre1` and `pre2`. */
  datatype Query = Query(scope: AccessMask, pre1: seq<Dentry>, pre2: seq<Dentry>)

  /** One path, and nothing to compare. */
  ghost predicate Simple(dom: Domain, request1: AccessMask, masks1: array<Mask>, child1: Option<Dentry>,
                         request2: AccessMask, masks2: array?<Mask>, child2: Option<Dentry>, q: Query)
    reads masks1
  {
    && masks2 == null && child1.None? && child2.None? && request2 == {} && q.pre1 == []
    && Shows(masks1[..], dom, q.scope, []) && request1 == HandledOf(dom, q.scope)
  }

  /** A rename or link: two parents, whose masks show all rights, and one or two moving children. */
  ghost predicate Double(dom: Domain, request1: AccessMask, masks1: array<Mask>, child1: Option<Dentry>,
                         request2: AccessMask, masks2: array?<Mask>, child2: Option<Dentry>, q: Query)
    reads masks1, masks2
  {
    && masks2 != null && masks1 != masks2 && child1.Some? && request1 != {} && request2 != {}
    && q.scope == MASK_ACCESS_FS
    && Shows(masks1[..], dom, MASK_ACCESS_FS, q.pre1) && Shows(masks2[..], dom, MASK_ACCESS_FS, q.pre2)
  }

  /** Neither child gains a right by changing places. */
  ghost predicate Safe(dom: Domain, child1: Option<Dentry>, child2: Option<Dentry>, path1: seq<Dentry>, path2: seq<Dentry>)
  {
    && (child1.Some? ==> NoGain(dom, child1.value, path1, path2))
    && (child2.Some? ==> NoGain(dom, child2.value, path2, path1))
  }

  lemma SafeExtend(dom: Domain, child1: Option<Dentry>, child2: Option<Dentry>, path1: seq<Dentry>, path2: seq<Dentry>, rest: seq<Dentry>)
    requires Safe(dom, child1, child2, path1, path2)
    ensures Safe(dom, child1, child2, path1 + rest, path2 + rest)
  {
    if child1.Some? { NoGainExtend(dom, child1.value, path1, path2, rest); }
    if child2.Some? { NoGainExtend(dom, child2.value, path2, path1, rest); }
  }

  lemma FreeSafe(dom: Domain, child1: Option<Dentry>, child2: Option<Dentry>, path1: seq<Dentry>, path2: seq<Dentry>)
    requires Allowed(dom, path1, MASK_ACCESS_FS) && Allowed(dom, path2, MASK_ACCESS_FS)
    ensures Safe(dom, child1, child2, path1, path2)
  {
    if child1.Some? { FreeNoGain(dom, child1.value, path1, path2); }
    if child2.Some? { FreeNoGain(dom, child2.value, path2, path1); }
  }

  /** What a rename or link needs. */
  ghost predicate Permitted(dom: Domain, child1: Option<Dentry>, child2: Option<Dentry>,
                            request1: AccessMask, request2: AccessMask, path1: seq<Dentry>, path2: seq<Dentry>)
  {
    Allowed(dom, path1, request1) && Allowed(dom, path2, request2) && Safe(dom, child1, child2, path1, path2)
  }

  /**
   Which renames and links the walk over `steps` accepts: both hierarchies grant everything, or both requests are
   granted and no child gains a right, even before the rule of the last dentry is taken into account.
   */
  ghost predicate Accepted(dom: Domain, child1: Option<Dentry>, child2: Option<Dentry>,
                           request1: AccessMask, request2: AccessMask, pre1: seq<Dentry>, pre2: seq<Dentry>, steps: seq<Dentry>)
    requires steps != []
  {
    || (Allowed(dom, pre1 + steps, MASK_ACCESS_FS) && Allowed(dom, pre2 + steps, MASK_ACCESS_FS))
    || (&& Allowed(dom, pre1 + steps, request1) && Allowed(dom, pre2 + steps, request2)
        && Safe(dom, child1, child2, pre1 + steps[..|steps| - 1], pre2 + steps[..|steps| - 1]))
  }

  lemma SplitSteps(pre: seq<Dentry>, steps: seq<Dentry>, i: nat)
    requires i < |steps|
    ensures pre + steps[..i] + steps[i..] == pre + steps
    ensures pre + steps[..i + 1] + steps[i + 1..] == pre + steps
    ensures pre + steps[..i] + steps[i..|steps| - 1] == pre + steps[..|steps| - 1]
    ensures pre + steps[..i] + [steps[i]] == pre + steps[..i + 1]
  {
  }

  /** What the walk has found when it stops early, at dentry `i`. */
  lemma AcceptedAt(dom: Domain, child1: Option<Dentry>, child2: Option<Dentry>, request1: AccessMask, request2: AccessMask,
                   pre1: seq<Dentry>, pre2: seq<Dentry>, steps: seq<Dentry>, i: nat)
    requires i < |steps|
    requires (Allowed(dom, pre1 + steps[..i + 1], MASK_ACCESS_FS) && Allowed(dom, pre2 + steps[..i + 1], MASK_ACCESS_FS))
      || (&& Allowed(dom, pre1 + steps[..i + 1], request1) && Allowed(dom, pre2 + steps[..i + 1], request2)
          && Safe(dom, child1, child2, pre1 + steps[..i], pre2 + steps[..i]))
    ensures Accepted(dom, child1, child2, request1, request2, pre1, pre2, steps)
  {
    SplitSteps(pre1, steps, i);
    SplitSteps(pre2, steps, i);
    hide Allowed, Safe;
    if Allowed(dom, pre1 + steps[..i + 1], MASK_ACCESS_FS) && Allowed(dom, pre2 + steps[..i + 1], MASK_ACCESS_FS) {
      AllowedMono(dom, pre1 + steps[..i + 1], steps[i + 1..], MASK_ACCESS_FS);
      AllowedMono(dom, pre2 + steps[..i + 1], steps[i + 1..], MASK_ACCESS_FS);
    } else {
      AllowedMono(dom, pre1 + steps[..i + 1], steps[i + 1..], request1);
      AllowedMono(dom, pre2 + steps[..i + 1], steps[i + 1..], request2);
      SafeExtend(dom, child1, child2, pre1 + steps[..i], pre2 + steps[..i], steps[i..|steps| - 1]);
    }
  }

  /** What has been granted in one part of a request at least. */
  lemma AllowedPart(dom: Domain, path: seq<Dentry>, request: AccessMask, part: AccessMask)
    requires part <= request && Allowed(dom, path, request)
    ensures Allowed(dom, path, part)
  {
  }

  /** Whatever is accepted is permitted. */
  lemma AcceptedPermitted(dom: Domain, child1: Option<Dentry>, child2: Option<Dentry>, request1: AccessMask, request2: AccessMask,
                          pre1: seq<Dentry>, pre2: seq<Dentry>, steps: seq<Dentry>)
    requires steps != [] && Accepted(dom, child1, child2, request1, request2, pre1, pre2, steps)
    ensures Permitted(dom, child1, child2, request1, request2, pre1 + steps, pre2 + steps)
  {
    var n := |steps| - 1;
    SplitSteps(pre1, steps, n);
    SplitSteps(pre2, steps, n);
    hide Allowed, Safe;
    if Allowed(dom, pre1 + steps, MASK_ACCESS_FS) && Allowed(dom, pre2 + steps, MASK_ACCESS_FS) {
      assert request1 <= MASK_ACCESS_FS && request2 <= MASK_ACCESS_FS;
      AllowedPart(dom, pre1 + steps, MASK_ACCESS_FS, request1);
      AllowedPart(dom, pre2 + steps, MASK_ACCESS_FS, request2);
      FreeSafe(dom, child1, child2, pre1 + steps, pre2 + steps);
    } else {
      SafeExtend(dom, child1, child2, pre1 + steps[..n], pre2 + steps[..n], steps[n..]);
    }
  }

  /**
   What is not accepted after `path1` and `path2`, the last dentry of which has been visited: as long as the comparison
   has not succeeded, `old1` and `old2` are the paths of the last one that failed.
   */
  ghost predicate Undecided(dom: Domain, domCheck: bool, child1: Option<Dentry>, child2: Option<Dentry>,
                            request1: AccessMask, request2: AccessMask,
                            old1: seq<Dentry>, old2: seq<Dentry>, path1: seq<Dentry>, path2: seq<Dentry>)
  {
    if domCheck then
      && !Safe(dom, child1, child2, old1, old2)
      && !(Allowed(dom, path1, MASK_ACCESS_FS) && Allowed(dom, path2, MASK_ACCESS_FS))
    else
      !(Allowed(dom, path1, request1) && Allowed(dom, path2, request2))
  }

  /** At one dentry: what has been refused before stays so, unless its rule changes that. */
  lemma UndecidedStep(dom: Domain, domCheck: bool, child1: Option<Dentry>, child2: Option<Dentry>,
                      request1: AccessMask, request2: AccessMask, path1: seq<Dentry>, path2: seq<Dentry>, d: Dentry)
    requires if domCheck then !Safe(dom, child1, child2, path1, path2)
             else !(Allowed(dom, path1, request1) && Allowed(dom, path2, request2))
    requires var scope1, scope2 := if domCheck then MASK_ACCESS_FS else request1, if domCheck then MASK_ACCESS_FS else request2;
             FindRule(dom, d).None? || !(Allowed(dom, path1 + [d], scope1) && Allowed(dom, path2 + [d], scope2))
    ensures Undecided(dom, domCheck, child1, child2, request1, request2, path1, path2, path1 + [d], path2 + [d])
  {
    hide Allowed, Safe;
    if FindRule(dom, d).None? {
      NoRuleSame(dom, path1, d, if domCheck then MASK_ACCESS_FS else request1);
      NoRuleSame(dom, path2, d, if domCheck then MASK_ACCESS_FS else request2);
      if domCheck && Allowed(dom, path1, MASK_ACCESS_FS) && Allowed(dom, path2, MASK_ACCESS_FS) {
        FreeSafe(dom, child1, child2, path1, path2);
      }
    }
  }

  /** At the end of the walk nothing is left to decide. */
  lemma UndecidedRefused(dom: Domain, domCheck: bool, child1: Option<Dentry>, child2: Option<Dentry>,
                         request1: AccessMask, request2: AccessMask, pre1: seq<Dentry>, pre2: seq<Dentry>, steps: seq<Dentry>)
    requires steps != []
    requires Undecided(dom, domCheck, child1, child2, request1, request2,
                       pre1 + steps[..|steps| - 1], pre2 + steps[..|steps| - 1], pre1 + steps, pre2 + steps)
    ensures !Accepted(dom, child1, child2, request1, request2, pre1, pre2, steps)
  {
    hide Allowed, Safe;
    assert request1 <= MASK_ACCESS_FS && request2 <= MASK_ACCESS_FS;
    if Allowed(dom, pre1 + steps, MASK_ACCESS_FS) && Allowed(dom, pre2 + steps, MASK_ACCESS_FS) {
      AllowedPart(dom, pre1 + steps, MASK_ACCESS_FS, request1);
      AllowedPart(dom, pre2 + steps, MASK_ACCESS_FS, request2);
    }
  }

  /** The masks show what is forbidden after `path`, for the requested rights at least. */
  ghost predicate ShowsAll(masks: seq<Mask>, dom: Domain, request: AccessMask, path: seq<Dentry>)
  {
    |masks| == NUM_ACCESS_FS && forall r <- request :: masks[r] == Remaining(dom, path, r)
  }

  lemma VisitedAllowed(masks: seq<Mask>, dom: Domain, scope: AccessMask, access: AccessMask, path: seq<Dentry>, request: AccessMask)
    requires Shows(masks, dom, scope, path) && HandledOf(dom, scope) <= access && request <= scope
    requires access == {} || AllEmpty(masks, access)
    ensures Allowed(dom, path, scope) && Allowed(dom, path, request)
  {
    AllowedShown(masks, dom, scope, path, scope);
    AllowedRemaining(dom, path, scope);
    AllowedRemaining(dom, path, request);
  }

  lemma HandledSubset(dom: Domain, request: AccessMask)
    ensures HandledOf(dom, request) <= request
  {
  }

  /** The masks of a moving child: what is forbidden after its own rule. */
  method ChildMasks(dom: Domain, child: Option<Dentry>) returns (masks: array?<Mask>)
    requires WellFormed(dom)
    ensures masks == null <==> child.None?
    ensures masks != null ==> fresh(masks) && Shows(masks[..], dom, MASK_ACCESS_FS, [child.value])
  {
    if child.None? {
      return null;
    }
    masks := new Mask[NUM_ACCESS_FS];
    var handled := InitLayerMasks(dom, MASK_ACCESS_FS, masks);
    ghost var before := masks[..];
    FoundLevelled(dom, child.value);
    var _ := UnmaskLayers(FindRule(dom, child.value), handled, masks);
    ShowsStep(before, masks[..], dom, MASK_ACCESS_FS, [], child.value, handled);
    assert [] + [child.value] == [child.value];
  }

  method Scope(dom: Domain, request: AccessMask, masks: array<Mask>, ghost path: seq<Dentry>) returns (allowed: bool)
    requires Shows(masks[..], dom, MASK_ACCESS_FS, path)
    modifies masks
    ensures Shows(masks[..], dom, request, path) && allowed == Allowed(dom, path, request)
  {
    allowed := ScopeToRequest(request, masks);
    AllowedRemaining(dom, path, request);
  }

  /** The masks and the rights to clear, each time round a refer walk: all handled rights until the
      comparison has succeeded, and only what is requested from then on. */
  ghost predicate Comparing(dom: Domain, masks1: seq<Mask>, masks2: seq<Mask>, domCheck: bool,
                            access1: AccessMask, access2: AccessMask, request1: AccessMask, request2: AccessMask,
                            child1: Option<Dentry>, child2: Option<Dentry>, path1: seq<Dentry>, path2: seq<Dentry>)
  {
    if domCheck then
      && Shows(masks1, dom, MASK_ACCESS_FS, path1) && Shows(masks2, dom, MASK_ACCESS_FS, path2)
      && access1 == access2 == HandledOf(dom, MASK_ACCESS_FS)
    else
      && Shows(masks1, dom, request1, path1) && Shows(masks2, dom, request2, path2)
      && access1 == request1 && access2 == request2 && Safe(dom, child1, child2, path1, path2)
  }

  /** The masks of a simple walk: something requested is still forbidden. */
  ghost predicate Asking(dom: Domain, masks: seq<Mask>, scope: AccessMask, access: AccessMask, path: seq<Dentry>)
  {
    Shows(masks, dom, scope, path) && access == HandledOf(dom, scope) && !AllEmpty(masks, access)
  }

  /** The comparison at the head of each turn of a refer walk; on success the masks are scoped. */
  method Compare(dom: Domain, request1: AccessMask, masks1: array<Mask>, child1: Dentry, own1: array<Mask>,
                 request2: AccessMask, masks2: array<Mask>, child2: Option<Dentry>, own2: array?<Mask>,
                 access: AccessMask, ghost path1: seq<Dentry>, ghost path2: seq<Dentry>)
    returns (pass: bool, allowed1: bool, allowed2: bool)
    requires masks1 != masks2 && own1 != masks1 && own1 != masks2 && (own2 == null <==> child2.None?)
    requires Comparing(dom, masks1[..], masks2[..], true, access, access, request1, request2, Some(child1), child2, path1, path2)
    requires Shows(own1[..], dom, MASK_ACCESS_FS, [child1])
    requires own2 != null ==> own2 != masks1 && own2 != masks2 && Shows(own2[..], dom, MASK_ACCESS_FS, [child2.value])
    modifies masks1, masks2
    ensures pass <==> Safe(dom, Some(child1), child2, path1, path2)
    ensures pass ==> Comparing(dom, masks1[..], masks2[..], false, request1, request2, request1, request2, Some(child1), child2, path1, path2)
    ensures pass ==> allowed1 == Allowed(dom, path1, request1) && allowed2 == Allowed(dom, path2, request2)
    ensures !pass ==> masks1[..] == old(masks1[..]) && masks2[..] == old(masks2[..])
  {
    allowed1, allowed2 := false, false;
    pass := NoMoreAccess(masks1, own1, child1.IsDir(), masks2, own2, child2.Some? && child2.value.IsDir());
    RestrictsExactly(dom, child1, path1, path2, masks1[..], own1[..], masks2[..]);
    if child2.Some? {
      RestrictsExactly(dom, child2.value, path2, path1, masks2[..], own2[..], masks1[..]);
    }
    hide NoGain, Restricts, Remaining, Allowed;
    if pass {
      allowed1 := Scope(dom, request1, masks1, path1);
      allowed2 := Scope(dom, request2, masks2, path2);
    }
  }

  /** One dentry of the walk: its rule clears both matrices. */
  method Visit(dom: Domain, d: Dentry, access1: AccessMask, masks1: array<Mask>, access2: AccessMask, masks2: array?<Mask>,
               ghost scope1: AccessMask, ghost path1: seq<Dentry>, ghost scope2: AccessMask, ghost path2: seq<Dentry>)
    returns (allowed1: bool, allowed2: bool)
    requires WellFormed(dom) && masks1 != masks2
    requires Shows(masks1[..], dom, scope1, path1) && HandledOf(dom, scope1) <= access1
    requires masks2 != null ==> Shows(masks2[..], dom, scope2, path2) && HandledOf(dom, scope2) <= access2
    modifies masks1, if masks2 == null then {} else {masks2}
    ensures Shows(masks1[..], dom, scope1, path1 + [d])
    ensures masks2 != null ==> Shows(masks2[..], dom, scope2, path2 + [d])
    ensures FindRule(dom, d).None? ==> masks1[..] == old(masks1[..])
    ensures allowed1 == (access1 == {} || (FindRule(dom, d).Some? && AllEmpty(masks1[..], access1)))
    ensures allowed2 == (access2 == {} || masks2 == null || (FindRule(dom, d).Some? && AllEmpty(masks2[..], access2)))
  {
    var rule := FindRule(dom, d);
    ghost var before1, before2 := masks1[..], if masks2 == null then [] else masks2[..];
    FoundLevelled(dom, d);
    allowed1 := UnmaskLayers(rule, access1, masks1);
    allowed2 := UnmaskLayers(rule, access2, masks2);
    ShowsStep(before1, masks1[..], dom, scope1, path1, d, access1);
    if masks2 != null {
      ShowsStep(before2, masks2[..], dom, scope2, path2, d, access2);
    }
  }

  lemma NothingToClear(masks: seq<Mask>)
    requires |masks| == NUM_ACCESS_FS
    ensures AllEmpty(masks, {})
  {
  }

  /** A simple walk at one dentry. */
  lemma AskingStep(dom: Domain, before: seq<Mask>, after: seq<Mask>, scope: AccessMask, access: AccessMask,
                   path: seq<Dentry>, d: Dentry, allowed: bool)
    requires Asking(dom, before, scope, access, path) && Shows(after, dom, scope, path + [d])
    requires FindRule(dom, d).None? ==> after == before
    requires allowed == (access == {} || (FindRule(dom, d).Some? && AllEmpty(after, access)))
    ensures allowed ==> Allowed(dom, path + [d], scope)
    ensures !allowed ==> Asking(dom, after, scope, access, path + [d]) && !Allowed(dom, path + [d], scope)
  {
    AllowedShown(after, dom, scope, path + [d], scope);
    assert scope * HandledOf(dom, scope) == HandledOf(dom, scope);
  }

  /** A refer walk at one dentry. */
  lemma ComparingStep(dom: Domain, after1: seq<Mask>, after2: seq<Mask>, domCheck: bool,
                      access1: AccessMask, access2: AccessMask, request1: AccessMask, request2: AccessMask,
                      child1: Option<Dentry>, child2: Option<Dentry>, path1: seq<Dentry>, path2: seq<Dentry>, d: Dentry)
    requires if domCheck then access1 == access2 == HandledOf(dom, MASK_ACCESS_FS)
             else access1 == request1 && access2 == request2 && Safe(dom, child1, child2, path1, path2)
    requires Shows(after1, dom, if domCheck then MASK_ACCESS_FS else request1, path1 + [d])
    requires Shows(after2, dom, if domCheck then MASK_ACCESS_FS else request2, path2 + [d])
    ensures Comparing(dom, after1, after2, domCheck, access1, access2, request1, request2, child1, child2, path1 + [d], path2 + [d])
    ensures AllEmpty(after1, access1) <==> Allowed(dom, path1 + [d], if domCheck then MASK_ACCESS_FS else request1)
    ensures AllEmpty(after2, access2) <==> Allowed(dom, path2 + [d], if domCheck then MASK_ACCESS_FS else request2)
    ensures AllEmpty(after1, access1) && AllEmpty(after2, access2) ==>
              Permitted(dom, child1, child2, request1, request2, path1 + [d], path2 + [d])
  {
    HandledSubset(dom, MASK_ACCESS_FS);
    HandledSubset(dom, request1);
    HandledSubset(dom, request2);
    ShownExactly(after1, dom, if domCheck then MASK_ACCESS_FS else request1, access1, path1 + [d]);
    ShownExactly(after2, dom, if domCheck then MASK_ACCESS_FS else request2, access2, path2 + [d]);
    if !domCheck {
      SafeExtend(dom, child1, child2, path1, path2, [d]);
    }
    if AllEmpty(after1, access1) && AllEmpty(after2, access2) {
      VisitedAllowed(after1, dom, if domCheck then MASK_ACCESS_FS else request1, access1, path1 + [d], request1);
      VisitedAllowed(after2, dom, if domCheck then MASK_ACCESS_FS else request2, access2, path2 + [d], request2);
      if domCheck {
        FreeSafe(dom, child1, child2, path1 + [d], path2 + [d]);
      }
    }
  }

  /** The rules at one dentry, in either kind of walk. */
  method VisitTurn(dom: Domain, d: Dentry, domCheck: bool,
                   access1: AccessMask, masks1: array<Mask>, child1: Option<Dentry>,
                   access2: AccessMask, masks2: array?<Mask>, child2: Option<Dentry>,
                   ghost request1: AccessMask, ghost request2: AccessMask, ghost scope: AccessMask,
                   ghost path1: seq<Dentry>, ghost path2: seq<Dentry>)
    returns (done: bool)
    requires WellFormed(dom) && masks1 != masks2
    requires masks1.Length == NUM_ACCESS_FS && (masks2 != null ==> masks2.Length == NUM_ACCESS_FS)
    requires masks2 == null ==> Asking(dom, masks1[..], scope, access1, path1) && access2 == {}
    requires masks2 != null ==>
      Comparing(dom, masks1[..], masks2[..], domCheck, access1, access2, request1, request2, child1, child2, path1, path2)
      && request1 != {} && request2 != {}
    modifies masks1, if masks2 == null then {} else {masks2}
    ensures masks2 == null && done ==> Allowed(dom, path1 + [d], scope)
    ensures masks2 == null && !done ==> Asking(dom, masks1[..], scope, access1, path1 + [d]) && !Allowed(dom, path1 + [d], scope)
    ensures masks2 != null && done ==> Permitted(dom, child1, child2, request1, request2, path1 + [d], path2 + [d])
    ensures masks2 != null ==>
      var scope1, scope2 := if domCheck then MASK_ACCESS_FS else request1, if domCheck then MASK_ACCESS_FS else request2;
      done <==> FindRule(dom, d).Some? && Allowed(dom, path1 + [d], scope1) && Allowed(dom, path2 + [d], scope2)
    ensures masks2 != null && !done ==>
      Comparing(dom, masks1[..], masks2[..], domCheck, access1, access2, request1, request2, child1, child2, path1 + [d], path2 + [d])
  {
    ghost var scope1 := if masks2 == null then scope else if domCheck then MASK_ACCESS_FS else request1;
    ghost var scope2 := if domCheck then MASK_ACCESS_FS else request2;
    ghost var before := masks1[..];
    HandledSubset(dom, request1);
    HandledSubset(dom, request2);
    ReferHandled(dom);
    hide Allowed, Remaining, NoGain, Safe, HandledOf, AllEmpty, Shows;
    var allowed1, allowed2 := Visit(dom, d, access1, masks1, access2, masks2, scope1, path1, scope2, path2);
    done := allowed1 && allowed2;
    if masks2 == null {
      AskingStep(dom, before, masks1[..], scope, access1, path1, d, allowed1);
    } else {
      ComparingStep(dom, masks1[..], masks2[..], domCheck, access1, access2, request1, request2, child1, child2, path1, path2, d);
      NothingToClear(masks1[..]);
      NothingToClear(masks2[..]);
    }
  }

  /** A request that no layer handles is allowed everywhere. */
  lemma NothingHandled(dom: Domain, scope: AccessMask, path: seq<Dentry>)
    ensures HandledOf(dom, scope) == {} ==> Allowed(dom, path, scope)
  {
    AllowedRemaining(dom, path, scope);
    forall r | r in scope && HandledOf(dom, scope) == {} ensures Remaining(dom, path, r) == {} {
      UnhandledFree(dom, scope, path, r);
    }
  }

  lemma AskingShows(dom: Domain, masks: seq<Mask>, scope: AccessMask, access: AccessMask, path: seq<Dentry>)
    requires Asking(dom, masks, scope, access, path)
    ensures Shows(masks, dom, scope, path)
  {
  }

  lemma ComparingShows(dom: Domain, masks1: seq<Mask>, masks2: seq<Mask>, domCheck: bool,
                       access1: AccessMask, access2: AccessMask, request1: AccessMask, request2: AccessMask,
                       child1: Option<Dentry>, child2: Option<Dentry>, path1: seq<Dentry>, path2: seq<Dentry>)
    requires Comparing(dom, masks1, masks2, domCheck, access1, access2, request1, request2, child1, child2, path1, path2)
    ensures ShowsAll(masks1, dom, request1, path1) && ShowsAll(masks2, dom, request2, path2)
  {
  }

  lemma ComparingSafe(dom: Domain, masks1: seq<Mask>, masks2: seq<Mask>, access1: AccessMask, access2: AccessMask,
                      request1: AccessMask, request2: AccessMask, child1: Option<Dentry>, child2: Option<Dentry>,
                      path1: seq<Dentry>, path2: seq<Dentry>)
    requires Comparing(dom, masks1, masks2, false, access1, access2, request1, request2, child1, child2, path1, path2)
    ensures Safe(dom, child1, child2, path1, path2)
  {
  }

  lemma UndecidedRequests(dom: Domain, child1: Option<Dentry>, child2: Option<Dentry>, request1: AccessMask, request2: AccessMask,
                          old1: seq<Dentry>, old2: seq<Dentry>, path1: seq<Dentry>, path2: seq<Dentry>)
    requires Undecided(dom, false, child1, child2, request1, request2, old1, old2, path1, path2)
    ensures !(Allowed(dom, path1, request1) && Allowed(dom, path2, request2))
  {
  }

  /** What the comparison has found when it ends the walk, before dentry `i` is visited. */
  lemma ComparedAccepted(dom: Domain, child1: Option<Dentry>, child2: Option<Dentry>, request1: AccessMask, request2: AccessMask,
                         pre1: seq<Dentry>, pre2: seq<Dentry>, steps: seq<Dentry>, i: nat)
    requires i < |steps| && Permitted(dom, child1, child2, request1, request2, pre1 + steps[..i], pre2 + steps[..i])
    ensures Accepted(dom, child1, child2, request1, request2, pre1, pre2, steps)
  {
    hide Allowed, Safe, Accepted;
    SplitSteps(pre1, steps, i);
    SplitSteps(pre2, steps, i);
    AllowedMono(dom, pre1 + steps[..i], [steps[i]], request1);
    AllowedMono(dom, pre2 + steps[..i], [steps[i]], request2);
    AcceptedAt(dom, child1, child2, request1, request2, pre1, pre2, steps, i);
  }

  /** The head of a turn: compare the hierarchies, as long as that has not succeeded. */
  method CompareTurn(dom: Domain, domCheck: bool,
                     request1: AccessMask, access1: AccessMask, masks1: array<Mask>, child1: Option<Dentry>, own1: array?<Mask>,
                     request2: AccessMask, access2: AccessMask, masks2: array?<Mask>, child2: Option<Dentry>, own2: array?<Mask>,
                     ghost path1: seq<Dentry>, ghost path2: seq<Dentry>)
    returns (done: bool, check: bool, next1: AccessMask, next2: AccessMask)
    requires domCheck ==> masks2 != null && child1.Some?
    requires masks1 != masks2 && own1 != masks1 && (own2 == null <==> child2.None?) && own2 != masks1
    requires masks2 != null ==> own1 != masks2 && own2 != masks2
    requires masks2 != null ==>
      Comparing(dom, masks1[..], masks2[..], domCheck, access1, access2, request1, request2, child1, child2, path1, path2)
    requires domCheck ==> own1 != null && Shows(own1[..], dom, MASK_ACCESS_FS, [child1.value])
    requires domCheck && own2 != null ==> Shows(own2[..], dom, MASK_ACCESS_FS, [child2.value])
    modifies masks1, if masks2 == null then {} else {masks2}
    ensures check ==> domCheck
    ensures masks2 == null ==> !done && masks1[..] == old(masks1[..]) && next1 == access1 && next2 == access2
    ensures masks2 != null && done ==> Permitted(dom, child1, child2, request1, request2, path1, path2)
    ensures masks2 != null && !done ==>
      Comparing(dom, masks1[..], masks2[..], check, next1, next2, request1, request2, child1, child2, path1, path2)
    ensures masks2 != null && !done && check ==> !Safe(dom, child1, child2, path1, path2)
    ensures masks2 != null && !done && domCheck && !check ==> !(Allowed(dom, path1, request1) && Allowed(dom, path2, request2))
  {
    done, check, next1, next2 := false, domCheck, access1, access2;
    if domCheck {
      var pass, allowed1, allowed2 :=
        Compare(dom, request1, masks1, child1.value, own1, request2, masks2, child2, own2, access1, path1, path2);
      if pass {
        done := allowed1 && allowed2;
        check, next1, next2 := false, request1, request2;
      }
    }
  }

  /** The walk up to the real root. */
  method Climb(dom: Domain, walk: Walk,
               request1: AccessMask, handled1: AccessMask, masks1: array<Mask>, child1: Option<Dentry>, own1: array?<Mask>,
               request2: AccessMask, handled2: AccessMask, masks2: array?<Mask>, child2: Option<Dentry>, own2: array?<Mask>,
               ghost q: Query)
    returns (allowed: bool)
    requires WellFormed(dom) && walk.steps != [] && request1 != {} && (masks2 != null ==> request2 != {})
    requires masks1.Length == NUM_ACCESS_FS && (masks2 != null ==> masks2.Length == NUM_ACCESS_FS && child1.Some?)
    requires masks1 != masks2 && own1 != masks1 && (own2 == null <==> child2.None?) && own2 != masks1
    requires masks2 != null ==> own1 != null && own1 != masks2 && own2 != masks2
    requires masks2 == null ==> Asking(dom, masks1[..], q.scope, handled1, q.pre1) && handled2 == {}
    requires masks2 != null ==>
      Comparing(dom, masks1[..], masks2[..], true, handled1, handled2, request1, request2, child1, child2, q.pre1, q.pre2)
    requires masks2 != null ==> Shows(own1[..], dom, MASK_ACCESS_FS, [child1.value])
    requires masks2 != null && own2 != null ==> Shows(own2[..], dom, MASK_ACCESS_FS, [child2.value])
    modifies masks1, if masks2 == null then {} else {masks2}
    ensures masks2 == null ==> (allowed <==> walk.end == End.Disconnected(true) || Allowed(dom, q.pre1 + walk.steps, q.scope))
    ensures masks2 == null && !allowed ==> Asking(dom, masks1[..], q.scope, handled1, q.pre1 + walk.steps)
    ensures masks2 != null ==>
      (allowed <==> walk.end == End.Disconnected(true)
                    || Accepted(dom, child1, child2, request1, request2, q.pre1, q.pre2, walk.steps))
    ensures masks2 != null && !allowed ==>
      ShowsAll(masks1[..], dom, request1, q.pre1 + walk.steps) && ShowsAll(masks2[..], dom, request2, q.pre2 + walk.steps)
  {
    hide *;
    var domCheck, access1, access2 := masks2 != null, handled1, handled2;
    ghost var path1, path2 := q.pre1, q.pre2;
    var i := 0;
    while true
      invariant 0 <= i < |walk.steps|
      invariant path1 == q.pre1 + walk.steps[..i] && path2 == q.pre2 + walk.steps[..i]
      invariant domCheck ==> masks2 != null
      invariant masks2 == null ==> Asking(dom, masks1[..], q.scope, access1, path1) && access1 == handled1 && access2 == {}
      invariant masks2 != null ==>
        Comparing(dom, masks1[..], masks2[..], domCheck, access1, access2, request1, request2, child1, child2, path1, path2)
      invariant masks2 != null && i > 0 ==>
        Undecided(dom, domCheck, child1, child2, request1, request2, q.pre1 + walk.steps[..i - 1], q.pre2 + walk.steps[..i - 1], path1, path2)
      invariant masks2 != null && i == 0 ==> domCheck
      invariant domCheck ==> Shows(own1[..], dom, MASK_ACCESS_FS, [child1.value])
      invariant domCheck && own2 != null ==> Shows(own2[..], dom, MASK_ACCESS_FS, [child2.value])
      decreases |walk.steps| - i
    {
      var done;
      var d := walk.steps[i];
      SplitSteps(q.pre1, walk.steps, i);
      SplitSteps(q.pre2, walk.steps, i);
      ghost var wasCheck := domCheck;
      done, domCheck, access1, access2 :=
        CompareTurn(dom, domCheck, request1, access1, masks1, child1, own1, request2, access2, masks2, child2, own2, path1, path2);
      if done {
        ComparedAccepted(dom, child1, child2, request1, request2, q.pre1, q.pre2, walk.steps, i);
        return true;
      }
      if masks2 != null && !wasCheck {
        UndecidedRequests(dom, child1, child2, request1, request2, q.pre1 + walk.steps[..i - 1], q.pre2 + walk.steps[..i - 1], path1, path2);
      }
      ghost var shown1, shown2 := masks1[..], if masks2 == null then [] else masks2[..];
      done := VisitTurn(dom, d, domCheck, access1, masks1, child1, access2, masks2, child2, request1, request2, q.scope, path1, path2);
      if masks2 != null {
        if done {
          if !domCheck {
            ComparingSafe(dom, shown1, shown2, access1, access2, request1, request2, child1, child2, path1, path2);
          }
          AcceptedAt(dom, child1, child2, request1, request2, q.pre1, q.pre2, walk.steps, i);
          return true;
        }
        UndecidedStep(dom, domCheck, child1, child2, request1, request2, path1, path2, d);
      }
      i := i + 1;
      path1, path2 := path1 + [d], path2 + [d];
      if done {
        AllowedMono(dom, path1, walk.steps[i..], q.scope);
        return true;
      }
      if i == |walk.steps| {
        assert walk.steps[..i] == walk.steps;
        if masks2 != null {
          ComparingShows(dom, masks1[..], masks2[..], domCheck, access1, access2, request1, request2, child1, child2, path1, path2);
          UndecidedRefused(dom, domCheck, child1, child2, request1, request2, q.pre1, q.pre2, walk.steps);
        }
        return walk.end == End.Disconnected(true);
      }
    }
  }

  /** is_access_to_paths_allowed.

      A simple request is decided exactly: a layer mask matrix cleared with early exits says the same
      as the meaning of the domain. When two hierarchies are compared, `Accepted` says exactly which moves
      pass; both parents then grant what is asked, and no child gains a right. On failure the masks still
      show what is forbidden at the real root. */
  method IsAccessToPathsAllowed(dom: Domain, walk: Walk,
                                request1: AccessMask, masks1: array<Mask>, child1: Option<Dentry>,
                                request2: AccessMask, masks2: array?<Mask>, child2: Option<Dentry>, ghost q: Query)
    returns (allowed: bool)
    requires WellFormed(dom) && walk.steps != []
    requires Simple(dom, request1, masks1, child1, request2, masks2, child2, q)
          || Double(dom, request1, masks1, child1, request2, masks2, child2, q)
    modifies masks1, if masks2 == null then {} else {masks2}
    ensures masks2 == null ==> (allowed <==> walk.Exempt() || Allowed(dom, walk.steps, q.scope))
    ensures masks2 == null ==> (allowed <==> walk.Exempt() || !Refused(dom, walk.steps, q.scope))
    ensures masks2 == null && !allowed ==> Shows(masks1[..], dom, q.scope, walk.steps)
    ensures masks2 != null ==>
      (allowed <==> walk.Exempt() || Accepted(dom, child1, child2, request1, request2, q.pre1, q.pre2, walk.steps))
    ensures masks2 != null && allowed ==>
      walk.Exempt() || Permitted(dom, child1, child2, request1, request2, q.pre1 + walk.steps, q.pre2 + walk.steps)
    ensures masks2 != null && !allowed ==>
      ShowsAll(masks1[..], dom, request1, q.pre1 + walk.steps) && ShowsAll(masks2[..], dom, request2, q.pre2 + walk.steps)
  {
    RefusedExactly(dom, walk.steps, q.scope);
    hide Refused;
    if request1 == {} && request2 == {} {
      NothingHandled(dom, q.scope, walk.steps);
      return true;
    }
    if walk.private {
      return true;
    }
    var handled1, handled2 := request1, request2;
    if masks2 != null {
      handled1 := GetHandledAccesses(dom);
      handled2 := handled1;
    } else {
      NotYetAllowed(masks1[..], dom, q.scope);
      assert q.pre1 + walk.steps == walk.steps;
    }
    hide Allowed, Remaining, NoGain, Safe, HandledOf, AllEmpty, Permitted, Accepted;
    var own1 := ChildMasks(dom, child1);
    var own2 := ChildMasks(dom, child2);
    allowed := Climb(dom, walk, request1, handled1, masks1, child1, own1, request2, handled2, masks2, child2, own2, q);
    if masks2 == null && !allowed {
      AskingShows(dom, masks1[..], q.scope, handled1, walk.steps);
    }
    if masks2 != null && allowed && !walk.Exempt() {
      AcceptedPermitted(dom, child1, child2, request1, request2, q.pre1, q.pre2, walk.steps);
    }
  }
}
