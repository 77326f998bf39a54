/**
 The Landlock hooks of fs.c that decide: simple path requests, opening and truncating files, and
 renames and links.
 */
module LandlockHooks {
  import opened Basics
  import opened LandlockPolicy
  import opened LandlockAccess
  import opened LandlockWalk

  datatype Errno = OK | EACCES | EXDEV | ENOENT

  /** check_access_path */
  method CheckAccessPath(dom: Domain, walk: Walk, request: AccessMask) returns (err: Errno)
    requires WellFormed(dom) && walk.steps != []
    ensures err == if walk.Exempt() || Allowed(dom, walk.steps, request) then OK else EACCES
    ensures err == if walk.Exempt() || !Refused(dom, walk.steps, request) then OK else EACCES
  {
    var masks := new Mask[NUM_ACCESS_FS];
    var handled := InitLayerMasks(dom, request, masks);
    var allowed := IsAccessToPathsAllowed(dom, walk, handled, masks, None, {}, null, None, Query(request, [], []));
    return if allowed then OK else EACCES;
  }

  // ---------------------------------------------------------------- opening a file

  /** get_required_file_open_access */
  function RequiredOpenAccess(read: bool, write: bool, exec: bool, isDir: bool): AccessMask
  {
    if read && isDir then {READ_DIR}
    else (if read then {READ_FILE} else {}) + (if write then {WRITE_FILE} else {}) + (if exec then {EXECUTE} else {})
  }

  /** What an open needs: a directory, when read, only the right to read directories; a file, one right per mode. */
  lemma OpenNeeds(dom: Domain, path: seq<Dentry>, read: bool, write: bool, exec: bool, isDir: bool)
    ensures Allowed(dom, path, RequiredOpenAccess(read, write, exec, isDir)) <==>
            && (read && isDir ==> Allowed(dom, path, {READ_DIR}))
            && (read && !isDir ==> Allowed(dom, path, {READ_FILE}))
            && (write && !(read && isDir) ==> Allowed(dom, path, {WRITE_FILE}))
            && (exec && !(read && isDir) ==> Allowed(dom, path, {EXECUTE}))
  {
  }

  /** hook_file_open: one walk for the rights needed now and for truncation later. The answers are the
      same as those of two separate walks. */
  method FileOpen(dom: Option<Domain>, walk: Walk, read: bool, write: bool, exec: bool, isDir: bool, was: AccessMask)
    returns (err: Errno, allowedAccess: AccessMask)
    requires dom.Some? ==> WellFormed(dom.value)
    requires walk.steps != []
    ensures dom.None? ==> err == OK && allowedAccess == was
    ensures dom.Some? ==>
      var open := RequiredOpenAccess(read, write, exec, isDir);
      && err == (if walk.Exempt() || Allowed(dom.value, walk.steps, open) then OK else EACCES)
      && (TRUNCATE in allowedAccess <==> walk.Exempt() || Allowed(dom.value, walk.steps, {TRUNCATE}))
      && allowedAccess <= open + {TRUNCATE}
    ensures dom.Some? && !walk.Exempt() ==>
      (err == OK <==>
         && (read && isDir ==> Allowed(dom.value, walk.steps, {READ_DIR}))
         && (read && !isDir ==> Allowed(dom.value, walk.steps, {READ_FILE}))
         && (write && !(read && isDir) ==> Allowed(dom.value, walk.steps, {WRITE_FILE}))
         && (exec && !(read && isDir) ==> Allowed(dom.value, walk.steps, {EXECUTE})))
  {
    if dom.Some? {
      OpenNeeds(dom.value, walk.steps, read, write, exec, isDir);
    }
    if dom.None? {
      return OK, was;
    }
    var open := RequiredOpenAccess(read, write, exec, isDir);
    allowedAccess := GrantedAccess(dom.value, walk, open + {TRUNCATE});
    assert {TRUNCATE} <= allowedAccess <==> TRUNCATE in allowedAccess;
    assert open * allowedAccess == open <==> open <= allowedAccess;
    err := if open * allowedAccess == open then OK else EACCES;
  }

  /** The rights of `full` that one walk finds granted. */
  method GrantedAccess(dom: Domain, walk: Walk, full: AccessMask) returns (access: AccessMask)
    requires WellFormed(dom) && walk.steps != []
    ensures access <= full
    ensures forall part: AccessMask :: part <= full ==> (part <= access <==> walk.Exempt() || Allowed(dom, walk.steps, part))
  {
    var masks := new Mask[NUM_ACCESS_FS];
    var handled := InitLayerMasks(dom, full, masks);
    var allowed := IsAccessToPathsAllowed(dom, walk, handled, masks, None, {}, null, None, Query(full, [], []));
    if allowed {
      AllowedParts(dom, walk.steps, full);
      return full;
    }
    AllowedParts(dom, walk.steps, full);
    access := Unvetoed(masks, full);
    forall part: AccessMask | part <= full ensures part <= access <==> Allowed(dom, walk.steps, part) {
      OpenedAccess(dom, walk.steps, full, masks[..], access, part);
    }
  }

  /** The requested rights that no layer has vetoed. */
  method Unvetoed(masks: array<Mask>, full: AccessMask) returns (access: AccessMask)
    requires masks.Length == NUM_ACCESS_FS
    ensures forall r: Right :: r in access <==> r in full && masks[r] == {}
  {
    access := {};
    for bit := 0 to NUM_ACCESS_FS
      invariant forall r: Right :: r in access <==> r in full && r < bit && masks[r] == {}
    {
      if bit in full && masks[bit] == {} {
        access := access + {bit};
      }
    }
  }

  lemma AllowedParts(dom: Domain, path: seq<Dentry>, full: AccessMask)
    ensures forall part: AccessMask :: part <= full && Allowed(dom, path, full) ==> Allowed(dom, path, part)
  {
  }

  lemma OpenedAccess(dom: Domain, path: seq<Dentry>, full: AccessMask, masks: seq<Mask>, access: AccessMask, part: AccessMask)
    requires Shows(masks, dom, full, path) && part <= full
    requires forall r: Right :: r in access <==> r in full && masks[r] == {}
    ensures part <= access <==> Allowed(dom, path, part)
  {
    AllowedRemaining(dom, path, part);
  }

  // ---------------------------------------------------------------- renames and links

  /** Masks that have become empty at `d` became so by its rule. */
  lemma CollectStep(dom: Domain, after: seq<Mask>, handled: AccessMask, path: seq<Dentry>, d: Dentry, all: bool)
    requires WellFormed(dom) && handled == HandledOf(dom, MASK_ACCESS_FS) && !Allowed(dom, path, MASK_ACCESS_FS)
    requires Shows(after, dom, MASK_ACCESS_FS, path + [d])
    requires all == (handled == {} || (FindRule(dom, d).Some? && AllEmpty(after, handled)))
    ensures all <==> Allowed(dom, path + [d], MASK_ACCESS_FS)
  {
    ReferHandled(dom);
    HandledSubset(dom, MASK_ACCESS_FS);
    ShownExactly(after, dom, MASK_ACCESS_FS, handled, path + [d]);
    if FindRule(dom, d).None? {
      NoRuleSame(dom, path, d, MASK_ACCESS_FS);
    }
  }

  /** Masks without any bit stay as they are. */
  lemma CollectStop(dom: Domain, masks: seq<Mask>, path: seq<Dentry>, rest: seq<Dentry>)
    requires Shows(masks, dom, MASK_ACCESS_FS, path) && Allowed(dom, path, MASK_ACCESS_FS)
    ensures Shows(masks, dom, MASK_ACCESS_FS, path + rest) && Allowed(dom, path + rest, MASK_ACCESS_FS)
  {
    AllowedMono(dom, path, rest, MASK_ACCESS_FS);
    AllowedRemaining(dom, path, MASK_ACCESS_FS);
    forall r: Right ensures Remaining(dom, path + rest, r) == Remaining(dom, path, r) {
      assert r in MASK_ACCESS_FS;
      RemainingMono(dom, path, rest, r);
    }
  }

  /** The rule of one more directory. */
  method CollectTurn(dom: Domain, d: Dentry, handled: AccessMask, masks: array<Mask>, ghost path: seq<Dentry>) returns (all: bool)
    requires WellFormed(dom) && masks.Length == NUM_ACCESS_FS && handled == HandledOf(dom, MASK_ACCESS_FS)
    requires Shows(masks[..], dom, MASK_ACCESS_FS, path) && !Allowed(dom, path, MASK_ACCESS_FS)
    modifies masks
    ensures Shows(masks[..], dom, MASK_ACCESS_FS, path + [d])
    ensures all <==> Allowed(dom, path + [d], MASK_ACCESS_FS)
  {
    hide Allowed, Remaining, HandledOf, AllEmpty, WellFormed, Cleared, FindRule, Levelled;
    ghost var before := masks[..];
    FoundLevelled(dom, d);
    all := UnmaskLayers(FindRule(dom, d), handled, masks);
    ShowsStep(before, masks[..], dom, MASK_ACCESS_FS, path, d, handled);
    CollectStep(dom, masks[..], handled, path, d, all);
  }

  /** collect_domain_accesses: from `dir` up to the root of its mount; exact, even when it stops early. */
  method CollectDomainAccesses(dom: Domain, chain: seq<Dentry>, masks: array<Mask>) returns (all: bool)
    requires WellFormed(dom) && chain != [] && masks.Length == NUM_ACCESS_FS
    modifies masks
    ensures Shows(masks[..], dom, MASK_ACCESS_FS, chain)
    ensures all <==> Allowed(dom, chain, MASK_ACCESS_FS)
  {
    ReferHandled(dom);
    hide Allowed, Remaining, HandledOf, AllEmpty, WellFormed, Shows;
    var handled := InitLayerMasks(dom, MASK_ACCESS_FS, masks);
    ghost var path: seq<Dentry> := [];
    var i := 0;
    while true
      invariant 0 <= i < |chain| && path == chain[..i] && Shows(masks[..], dom, MASK_ACCESS_FS, path)
      invariant !Allowed(dom, path, MASK_ACCESS_FS)
      decreases |chain| - i
    {
      all := CollectTurn(dom, chain[i], handled, masks, path);
      path, i := path + [chain[i]], i + 1;
      if all {
        assert path + chain[i..] == chain;
        CollectStop(dom, masks[..], path, chain[i..]);
        return;
      }
      if i == |chain| {
        assert path == chain;
        return;
      }
    }
  }

  /** get_mode_access */
  function ModeAccess(kind: Kind): Right
  {
    match kind
    case Symlink => MAKE_SYM
    case Directory => MAKE_DIR
    case CharDevice => MAKE_CHAR
    case BlockDevice => MAKE_BLOCK
    case Fifo => MAKE_FIFO
    case Socket => MAKE_SOCK
    case Regular => MAKE_REG
  }

  /** maybe_remove */
  function MaybeRemove(d: Dentry): AccessMask
  {
    if d.Negative? then {} else if d.IsDir() then {REMOVE_DIR} else {REMOVE_FILE}
  }

  /** Where a rename or link happens: the entry and the name it gets, the directories from both parents
      up to the root of their mount, and the directories above that. */
  datatype Move = Move(entry: Dentry, target: Dentry, from: seq<Dentry>, to: seq<Dentry>, above: seq<Dentry>, end: End,
                       sameDir: bool, removable: bool, exchange: bool)
  {
    ghost predicate Valid()
    {
      from != [] && to != [] && from[|from| - 1] == to[|to| - 1]
    }

    /** The whole way up from the old, and from the new, parent directory. */
    function OldPath(): seq<Dentry> { from + above }
    function NewPath(): seq<Dentry> { to + above }

    /** The rights asked of the old, and of the new, parent directory, apart from REFER. */
    function FromRequest(): AccessMask
    {
      (if exchange && target.Positive? then {ModeAccess(target.kind)} else {}) + (if removable then MaybeRemove(entry) else {})
    }

    function ToRequest(): AccessMask
    {
      (if entry.Positive? then {ModeAccess(entry.kind)} else {}) + (if removable then MaybeRemove(target) else {})
    }

    function Back(): Option<Dentry> { if exchange then Some(target) else None }

    /** The directories above the mount root, but for the last one; its rule comes too late for the comparison. */
    function Compared(): seq<Dentry> { if above == [] then [] else above[..|above| - 1] }

    /** Which moves to another directory pass, if the walk ends at the real root: a caller can tell from the rules. */
    ghost predicate Passes(dom: Domain, request1: AccessMask, request2: AccessMask)
    {
      || (Allowed(dom, OldPath(), MASK_ACCESS_FS) && Allowed(dom, NewPath(), MASK_ACCESS_FS))
      || (&& Allowed(dom, OldPath(), request1) && Allowed(dom, NewPath(), request2)
          && Safe(dom, Some(entry), Back(), from + Compared(), to + Compared()))
    }
  }

  // What a move needs, read off from the kinds of the entries and not from the requests above.

  /** A new entry of this kind may be made in the directory. */
  ghost predicate MayMake(dom: Domain, path: seq<Dentry>, kind: Kind)
  {
    && (kind.Directory? ==> Allowed(dom, path, {MAKE_DIR}))
    && (kind.Symlink? ==> Allowed(dom, path, {MAKE_SYM}))
    && (kind.CharDevice? ==> Allowed(dom, path, {MAKE_CHAR}))
    && (kind.BlockDevice? ==> Allowed(dom, path, {MAKE_BLOCK}))
    && (kind.Fifo? ==> Allowed(dom, path, {MAKE_FIFO}))
    && (kind.Socket? ==> Allowed(dom, path, {MAKE_SOCK}))
    && (kind.Regular? ==> Allowed(dom, path, {MAKE_REG}))
  }

  /** The entry may be removed from the directory. */
  ghost predicate MayRemove(dom: Domain, path: seq<Dentry>, d: Dentry)
  {
    && (d.Positive? && d.kind.Directory? ==> Allowed(dom, path, {REMOVE_DIR}))
    && (d.Positive? && !d.kind.Directory? ==> Allowed(dom, path, {REMOVE_FILE}))
  }

  /** What happens in the old parent directory: in an exchange the target is made there, and a rename removes the entry. */
  ghost predicate MayLeave(dom: Domain, path: seq<Dentry>, mv: Move)
  {
    && (mv.exchange && mv.target.Positive? ==> MayMake(dom, path, mv.target.kind))
    && (mv.removable ==> MayRemove(dom, path, mv.entry))
  }

  /** What happens in the new one: the entry is made, and a rename removes the target that it replaces. */
  ghost predicate MayArrive(dom: Domain, path: seq<Dentry>, mv: Move)
  {
    && (mv.entry.Positive? ==> MayMake(dom, path, mv.entry.kind))
    && (mv.removable ==> MayRemove(dom, path, mv.target))
  }

  lemma AllowedUnion(dom: Domain, path: seq<Dentry>, a: AccessMask, b: AccessMask)
    ensures Allowed(dom, path, a + b) <==> Allowed(dom, path, a) && Allowed(dom, path, b)
  {
  }

  /** The requests are what the kinds of the entries call for, no more and no less. */
  lemma RequestsMean(dom: Domain, path: seq<Dentry>, mv: Move)
    ensures Allowed(dom, path, mv.FromRequest()) <==> MayLeave(dom, path, mv)
    ensures Allowed(dom, path, mv.ToRequest()) <==> MayArrive(dom, path, mv)
  {
    var made1, gone1 := if mv.exchange && mv.target.Positive? then {ModeAccess(mv.target.kind)} else {}, if mv.removable then MaybeRemove(mv.entry) else {};
    var made2, gone2 := if mv.entry.Positive? then {ModeAccess(mv.entry.kind)} else {}, if mv.removable then MaybeRemove(mv.target) else {};
    AllowedUnion(dom, path, made1, gone1);
    AllowedUnion(dom, path, made2, gone2);
    assert Allowed(dom, path, {});
    hide Allowed;
  }

  /** What a move to another directory needs, apart from what the entries themselves may gain. */
  ghost predicate MayRefer(dom: Domain, mv: Move)
  {
    && MayLeave(dom, mv.OldPath(), mv) && Allowed(dom, mv.OldPath(), {REFER})
    && MayArrive(dom, mv.NewPath(), mv) && Allowed(dom, mv.NewPath(), {REFER})
  }

  /** With `above` above the mount root, the entry gains nothing by its move, and neither does the target of an exchange. */
  ghost predicate NothingGained(dom: Domain, mv: Move, above: seq<Dentry>)
  {
    && NoGain(dom, mv.entry, mv.from + above, mv.to + above)
    && (mv.exchange ==> NoGain(dom, mv.target, mv.to + above, mv.from + above))
  }

  /** `Passes` and `Permitted` in these terms. */
  lemma PassesMeans(dom: Domain, mv: Move)
    ensures var request1, request2 := mv.FromRequest() + {REFER}, mv.ToRequest() + {REFER};
            && (mv.Passes(dom, request1, request2) <==>
                  || (Allowed(dom, mv.OldPath(), MASK_ACCESS_FS) && Allowed(dom, mv.NewPath(), MASK_ACCESS_FS))
                  || (MayRefer(dom, mv) && NothingGained(dom, mv, mv.Compared())))
            && (Permitted(dom, Some(mv.entry), mv.Back(), request1, request2, mv.OldPath(), mv.NewPath()) <==>
                  MayRefer(dom, mv) && NothingGained(dom, mv, mv.above))
  {
    AllowedUnion(dom, mv.OldPath(), mv.FromRequest(), {REFER});
    AllowedUnion(dom, mv.NewPath(), mv.ToRequest(), {REFER});
    hide Allowed, NoGain, MayLeave, MayArrive;
    RequestsMean(dom, mv.OldPath(), mv);
    RequestsMean(dom, mv.NewPath(), mv);
  }

  /** A plain link of a regular file asks for REFER on both sides, and for MAKE_REG in the new directory. */
  lemma PlainLink(mv: Move)
    ensures mv.entry.Positive? && mv.entry.kind == Regular && !mv.removable && !mv.exchange ==>
      mv.FromRequest() + {REFER} == {REFER} && mv.ToRequest() + {REFER} == {MAKE_REG, REFER}
  {
  }

  /** Passing the root of the mount twice makes no difference. */
  lemma RootTwice(dom: Domain, chain: seq<Dentry>, above: seq<Dentry>, l: nat, r: Right)
    requires chain != []
    ensures GrantedOn(dom, chain + ([chain[|chain| - 1]] + above), l, r) <==> GrantedOn(dom, chain + above, l, r)
  {
    var root := chain[|chain| - 1];
    assert chain == chain[..|chain| - 1] + [root];
    GrantedConcat(dom, chain[..|chain| - 1], [root], l, r);
    GrantedConcat(dom, chain, [root] + above, l, r);
    GrantedConcat(dom, [root], above, l, r);
    GrantedConcat(dom, chain, above, l, r);
  }

  ghost predicate SameGrants(dom: Domain, a: seq<Dentry>, b: seq<Dentry>)
  {
    forall l: nat, r: Right :: GrantedOn(dom, a, l, r) <==> GrantedOn(dom, b, l, r)
  }

  lemma RootTwiceSame(dom: Domain, chain: seq<Dentry>, above: seq<Dentry>)
    requires chain != []
    ensures SameGrants(dom, chain + ([chain[|chain| - 1]] + above), chain + above)
  {
    forall l: nat, r: Right ensures GrantedOn(dom, chain + ([chain[|chain| - 1]] + above), l, r) <==> GrantedOn(dom, chain + above, l, r) {
      RootTwice(dom, chain, above, l, r);
    }
  }

  lemma SameAllowed(dom: Domain, a: seq<Dentry>, b: seq<Dentry>, request: AccessMask)
    requires SameGrants(dom, a, b)
    ensures Allowed(dom, a, request) <==> Allowed(dom, b, request)
  {
  }

  lemma SameNoGain(dom: Domain, child: Dentry, a1: seq<Dentry>, b1: seq<Dentry>, a2: seq<Dentry>, b2: seq<Dentry>)
    requires SameGrants(dom, a1, b1) && SameGrants(dom, a2, b2) && NoGain(dom, child, a1, a2)
    ensures NoGain(dom, child, b1, b2)
  {
    forall r, l | (child.IsDir() || r in ACCESS_FILE) && Handles(dom, l, r) && GrantedOn(dom, [child] + b2, l, r)
      ensures GrantedOn(dom, [child] + b1, l, r)
    {
      GrantedConcat(dom, [child], b2, l, r);
      GrantedConcat(dom, [child], a2, l, r);
      GrantedConcat(dom, [child], a1, l, r);
      GrantedConcat(dom, [child], b1, l, r);
    }
  }

  lemma SameSafe(dom: Domain, child1: Option<Dentry>, child2: Option<Dentry>,
                 a1: seq<Dentry>, b1: seq<Dentry>, a2: seq<Dentry>, b2: seq<Dentry>)
    requires SameGrants(dom, a1, b1) && SameGrants(dom, a2, b2)
    ensures Safe(dom, child1, child2, a1, a2) <==> Safe(dom, child1, child2, b1, b2)
  {
    hide NoGain;
    if Safe(dom, child1, child2, a1, a2) {
      if child1.Some? { SameNoGain(dom, child1.value, a1, b1, a2, b2); }
      if child2.Some? { SameNoGain(dom, child2.value, a2, b2, a1, b1); }
    }
    if Safe(dom, child1, child2, b1, b2) {
      if child1.Some? { SameNoGain(dom, child1.value, b1, a1, b2, a2); }
      if child2.Some? { SameNoGain(dom, child2.value, b2, a2, b1, a1); }
    }
  }

  /** The walk of a move starts at the root of the mount, which both ways up have passed already. */
  lemma PassesAccepted(dom: Domain, mv: Move, request1: AccessMask, request2: AccessMask)
    requires mv.Valid()
    ensures mv.Passes(dom, request1, request2) <==>
            Accepted(dom, Some(mv.entry), mv.Back(), request1, request2, mv.from, mv.to, [mv.to[|mv.to| - 1]] + mv.above)
  {
    var root := mv.to[|mv.to| - 1];
    var steps := [root] + mv.above;
    var n := |mv.above|;
    RootTwiceSame(dom, mv.from, mv.above);
    RootTwiceSame(dom, mv.to, mv.above);
    SameAllowed(dom, mv.from + steps, mv.OldPath(), MASK_ACCESS_FS);
    SameAllowed(dom, mv.to + steps, mv.NewPath(), MASK_ACCESS_FS);
    SameAllowed(dom, mv.from + steps, mv.OldPath(), request1);
    SameAllowed(dom, mv.to + steps, mv.NewPath(), request2);
    hide Allowed, Safe, SameGrants;
    if n == 0 {
      assert steps[..|steps| - 1] == mv.Compared() == [];
    } else {
      RootTwiceSame(dom, mv.from, mv.Compared());
      RootTwiceSame(dom, mv.to, mv.Compared());
      assert steps[..|steps| - 1] == [root] + mv.Compared();
      SameSafe(dom, Some(mv.entry), mv.Back(), mv.from + steps[..|steps| - 1], mv.from + mv.Compared(),
               mv.to + steps[..|steps| - 1], mv.to + mv.Compared());
    }
  }

  /** A move between directories that are granted everything passes. */
  lemma FreePasses(dom: Domain, mv: Move, request1: AccessMask, request2: AccessMask)
    requires Allowed(dom, mv.from, MASK_ACCESS_FS) && Allowed(dom, mv.to, MASK_ACCESS_FS)
    ensures mv.Passes(dom, request1, request2)
  {
    AllowedMono(dom, mv.from, mv.above, MASK_ACCESS_FS);
    AllowedMono(dom, mv.to, mv.above, MASK_ACCESS_FS);
  }

  /** Whatever passes is permitted. */
  lemma PassesPermitted(dom: Domain, mv: Move, request1: AccessMask, request2: AccessMask)
    requires mv.Valid() && mv.Passes(dom, request1, request2)
    ensures Permitted(dom, Some(mv.entry), mv.Back(), request1, request2, mv.OldPath(), mv.NewPath())
  {
    hide Allowed, Safe;
    if Allowed(dom, mv.OldPath(), MASK_ACCESS_FS) && Allowed(dom, mv.NewPath(), MASK_ACCESS_FS) {
      assert request1 <= MASK_ACCESS_FS && request2 <= MASK_ACCESS_FS;
      AllowedPart(dom, mv.OldPath(), MASK_ACCESS_FS, request1);
      AllowedPart(dom, mv.NewPath(), MASK_ACCESS_FS, request2);
      FreeSafe(dom, Some(mv.entry), mv.Back(), mv.OldPath(), mv.NewPath());
    } else if mv.above != [] {
      var last := mv.above[|mv.above| - 1];
      assert mv.from + mv.Compared() + [last] == mv.OldPath() && mv.to + mv.Compared() + [last] == mv.NewPath();
      SafeExtend(dom, Some(mv.entry), mv.Back(), mv.from + mv.Compared(), mv.to + mv.Compared(), [last]);
    } else {
      assert mv.from + mv.Compared() == mv.OldPath() && mv.to + mv.Compared() == mv.NewPath();
    }
  }

  /** When the mount root is the real root, the comparison sees every rule: exactly what is permitted passes. */
  lemma PassesAtRealRoot(dom: Domain, mv: Move, request1: AccessMask, request2: AccessMask)
    requires mv.Valid() && mv.above == []
    ensures mv.Passes(dom, request1, request2) <==>
            Permitted(dom, Some(mv.entry), mv.Back(), request1, request2, mv.OldPath(), mv.NewPath())
  {
    assert mv.from + mv.Compared() == mv.OldPath() && mv.to + mv.Compared() == mv.NewPath();
    if mv.Passes(dom, request1, request2) {
      PassesPermitted(dom, mv, request1, request2);
    }
  }

  // A move that is safe and granted, and is refused: what the entry gains below its new parent is granted, in the end,
  // by the rule of the real root, which is on the old way up as well.

  const LATE_DOMAIN := Domain([{READ_FILE, WRITE_FILE}], map[1 := [Layer(1, {READ_FILE})], 2 := [Layer(1, {READ_FILE, REFER})]])

  const LATE_MOVE := Move(Positive(Regular, None), Negative,
                          [Positive(Directory, None), Positive(Directory, None)],
                          [Positive(Directory, Some(1)), Positive(Directory, None)],
                          [Positive(Directory, Some(2))], RealRoot, false, false, false)

  lemma LateGrants(l: nat, r: Right)
    ensures Grants(LATE_DOMAIN, Positive(Directory, Some(1)), l, r) <==> l == 0 && r == READ_FILE
    ensures Grants(LATE_DOMAIN, Positive(Directory, Some(2)), l, r) <==> l == 0 && r in {READ_FILE, REFER}
    ensures !Grants(LATE_DOMAIN, Positive(Directory, None), l, r) && !Grants(LATE_DOMAIN, Positive(Regular, None), l, r)
  {
    assert LATE_DOMAIN.rules[1][0] == Layer(1, {READ_FILE}) && LATE_DOMAIN.rules[2][0] == Layer(1, {READ_FILE, REFER});
  }

  lemma SafeButRefused()
    ensures WellFormed(LATE_DOMAIN) && LATE_MOVE.Valid() && LATE_MOVE.end == RealRoot
    ensures Permitted(LATE_DOMAIN, Some(LATE_MOVE.entry), LATE_MOVE.Back(), {REFER}, {REFER}, LATE_MOVE.OldPath(), LATE_MOVE.NewPath())
    ensures !LATE_MOVE.Passes(LATE_DOMAIN, {REFER}, {REFER})
  {
    var dom, mv := LATE_DOMAIN, LATE_MOVE;
    var old_, new_ := mv.OldPath(), mv.NewPath();
    forall l: nat, r: Right
      ensures forall d <- [Positive(Directory, None), Positive(Regular, None)] :: !Grants(dom, d, l, r)
      ensures Grants(dom, Positive(Directory, Some(1)), l, r) <==> l == 0 && r == READ_FILE
      ensures Grants(dom, Positive(Directory, Some(2)), l, r) <==> l == 0 && r in {READ_FILE, REFER}
    {
      LateGrants(l, r);
    }
    assert Grants(dom, old_[2], 0, REFER) && Grants(dom, new_[2], 0, REFER) && Grants(dom, old_[2], 0, READ_FILE);
    assert ([mv.entry] + old_)[3] == old_[2];
    assert Handles(dom, 0, WRITE_FILE) && !GrantedOn(dom, old_, 0, WRITE_FILE) && WRITE_FILE in MASK_ACCESS_FS;
    var a, b := [mv.entry] + (mv.from + mv.Compared()), [mv.entry] + (mv.to + mv.Compared());
    assert b[1] == Positive(Directory, Some(1)) && Grants(dom, b[1], 0, READ_FILE);
    assert !GrantedOn(dom, a, 0, READ_FILE);
    assert Handles(dom, 0, READ_FILE) && READ_FILE in ACCESS_FILE;
  }

  /** The masks at the end of a refused move say which requests were refused. */
  lemma ShownAllowed(masks: seq<Mask>, dom: Domain, request: AccessMask, part: AccessMask, path: seq<Dentry>)
    requires ShowsAll(masks, dom, request, path) && part <= request
    ensures AllEmpty(masks, part) <==> Allowed(dom, path, part)
  {
    AllowedRemaining(dom, path, part);
  }

  /** current_check_refer_path. `Passes` says exactly which moves to another directory pass; such a move has
      all the rights it needs on both sides, and lets no layer grant more on what has moved. A refused one is
      refused with EACCES exactly if a right other than REFER is missing. */
  method CheckReferPath(dom: Domain, mv: Move) returns (err: Errno)
    requires WellFormed(dom) && mv.Valid()
    ensures err == ENOENT <==> mv.entry.Negative? || (mv.exchange && mv.target.Negative?)
    ensures err != ENOENT && mv.sameDir ==>
      err == if mv.end == End.Disconnected(true) || Allowed(dom, mv.NewPath(), mv.FromRequest() + mv.ToRequest()) then OK else EACCES
    ensures err != ENOENT && !mv.sameDir ==>
      (err == OK <==> mv.end == End.Disconnected(true) || mv.Passes(dom, mv.FromRequest() + {REFER}, mv.ToRequest() + {REFER}))
    ensures err != ENOENT && !mv.sameDir && mv.end != End.Disconnected(true) && mv.above == [] ==>
      (err == OK <==>
         Permitted(dom, Some(mv.entry), mv.Back(), mv.FromRequest() + {REFER}, mv.ToRequest() + {REFER}, mv.OldPath(), mv.NewPath()))
    ensures err == OK && !mv.sameDir ==>
      mv.end == End.Disconnected(true)
      || Permitted(dom, Some(mv.entry), mv.Back(), mv.FromRequest() + {REFER}, mv.ToRequest() + {REFER}, mv.OldPath(), mv.NewPath())
    ensures err in {EACCES, EXDEV} && !mv.sameDir ==>
      (err == EXDEV <==> Allowed(dom, mv.OldPath(), mv.FromRequest()) && Allowed(dom, mv.NewPath(), mv.ToRequest()))
    // The same in terms of the kinds of the entries:
    ensures err != ENOENT && mv.sameDir && mv.end != End.Disconnected(true) ==>
      err == if MayLeave(dom, mv.NewPath(), mv) && MayArrive(dom, mv.NewPath(), mv) then OK else EACCES
    ensures err != ENOENT && !mv.sameDir && mv.end != End.Disconnected(true) ==>
      (err == OK <==>
         || (Allowed(dom, mv.OldPath(), MASK_ACCESS_FS) && Allowed(dom, mv.NewPath(), MASK_ACCESS_FS))
         || (MayRefer(dom, mv) && NothingGained(dom, mv, mv.Compared())))
    ensures err == OK && !mv.sameDir && mv.end != End.Disconnected(true) ==> MayRefer(dom, mv) && NothingGained(dom, mv, mv.above)
    ensures err in {EACCES, EXDEV} && !mv.sameDir ==>
      (err == EXDEV <==> MayLeave(dom, mv.OldPath(), mv) && MayArrive(dom, mv.NewPath(), mv))
    // A plain link of a regular file:
    ensures mv.entry.Positive? && mv.entry.kind == Regular && !mv.removable && !mv.exchange && !mv.sameDir && mv.end != End.Disconnected(true) ==>
      (err == OK <==> mv.Passes(dom, {REFER}, {MAKE_REG, REFER}))
  {
    hide Allowed, Safe, Permitted, Move.Passes, MayLeave, MayArrive, MayRefer, NothingGained, WellFormed;
    PassesMeans(dom, mv);
    RequestsMean(dom, mv.OldPath(), mv);
    RequestsMean(dom, mv.NewPath(), mv);
    PlainLink(mv);
    AllowedUnion(dom, mv.NewPath(), mv.FromRequest(), mv.ToRequest());
    if mv.entry.Negative? || (mv.exchange && mv.target.Negative?) {
      return ENOENT;
    }
    var request1 := if mv.exchange then {ModeAccess(mv.target.kind)} else {};
    var request2 := {ModeAccess(mv.entry.kind)};
    if mv.removable {
      request1 := request1 + MaybeRemove(mv.entry);
      request2 := request2 + MaybeRemove(mv.target);
    }
    assert request1 == mv.FromRequest() && request2 == mv.ToRequest();
    if mv.sameDir {
      err := CheckAccessPath(dom, Walk(mv.to + mv.above, mv.end, false), request1 + request2);
      return;
    }
    err := CheckReparent(dom, mv, request1, request2);
    if mv.above == [] {
      PassesAtRealRoot(dom, mv, request1 + {REFER}, request2 + {REFER});
    }
  }

  /** The part of current_check_refer_path for two different parents. */
  method CheckReparent(dom: Domain, mv: Move, wanted1: AccessMask, wanted2: AccessMask) returns (err: Errno)
    requires WellFormed(dom) && mv.Valid() && REFER !in wanted1 && REFER !in wanted2
    ensures err == OK <==> mv.end == End.Disconnected(true) || mv.Passes(dom, wanted1 + {REFER}, wanted2 + {REFER})
    ensures err == OK ==>
      mv.end == End.Disconnected(true)
      || Permitted(dom, Some(mv.entry), mv.Back(), wanted1 + {REFER}, wanted2 + {REFER}, mv.OldPath(), mv.NewPath())
    ensures err == OK || err == EACCES || err == EXDEV
    ensures err != OK ==> (err == EXDEV <==> Allowed(dom, mv.OldPath(), wanted1) && Allowed(dom, mv.NewPath(), wanted2))
  {
    hide Allowed, Remaining, Safe, NoGain, Permitted, Accepted, Shows, ShowsAll, AllEmpty, SameGrants, WellFormed, Move.Passes;
    var request1, request2 := wanted1 + {REFER}, wanted2 + {REFER};
    var masks1, masks2 := new Mask[NUM_ACCESS_FS], new Mask[NUM_ACCESS_FS];
    var all1 := CollectDomainAccesses(dom, mv.from, masks1);
    var all2 := CollectDomainAccesses(dom, mv.to, masks2);
    PassesAccepted(dom, mv, request1, request2);
    if all1 && all2 {
      FreePasses(dom, mv, request1, request2);
    }
    if mv.Passes(dom, request1, request2) {
      PassesPermitted(dom, mv, request1, request2);
    }
    if all1 && all2 {
      return OK;
    }
    var root := mv.to[|mv.to| - 1];
    var walk := Walk([root] + mv.above, mv.end, false);
    RootTwiceSame(dom, mv.from, mv.above);
    RootTwiceSame(dom, mv.to, mv.above);
    var allowed := IsAccessToPathsAllowed(dom, walk, request1, masks1, Some(mv.entry), request2, masks2, mv.Back(),
                                          Query(MASK_ACCESS_FS, mv.from, mv.to));
    if allowed {
      return OK;
    }
    var denied1 := IsEacces(masks1, request1);
    var denied2 := IsEacces(masks2, request2);
    assert request1 - {REFER} == wanted1 && request2 - {REFER} == wanted2;
    ShownAllowed(masks1[..], dom, request1, wanted1, mv.from + walk.steps);
    ShownAllowed(masks2[..], dom, request2, wanted2, mv.to + walk.steps);
    SameAllowed(dom, mv.from + walk.steps, mv.OldPath(), wanted1);
    SameAllowed(dom, mv.to + walk.steps, mv.NewPath(), wanted2);
    return if denied1 || denied2 then EACCES else EXDEV;
  }

  /** No layer grants more, after a permitted move, on the moved entry or on anything inside it. */
  lemma LayerGainsNothing(dom: Domain, child: Dentry, from: seq<Dentry>, to: seq<Dentry>, inside: seq<Dentry>, l: nat, r: Right)
    requires NoGain(dom, child, from, to) && (child.IsDir() || r in {EXECUTE, WRITE_FILE, READ_FILE, TRUNCATE}) && Handles(dom, l, r)
    requires GrantedOn(dom, inside + ([child] + to), l, r)
    ensures GrantedOn(dom, inside + ([child] + from), l, r)
  {
    GrantedConcat(dom, inside, [child] + to, l, r);
    GrantedConcat(dom, inside, [child] + from, l, r);
  }

  /** No privilege escalation: whatever was in the moved tree before, at any depth, a request that the
      domain allows there after the move was allowed there before. */
  lemma MoveGainsNothing(dom: Domain, child: Dentry, from: seq<Dentry>, to: seq<Dentry>, inside: seq<Dentry>, request: AccessMask)
    requires NoGain(dom, child, from, to) && (child.IsDir() || request <= {EXECUTE, WRITE_FILE, READ_FILE, TRUNCATE})
    requires Allowed(dom, inside + ([child] + to), request)
    ensures Allowed(dom, inside + ([child] + from), request)
  {
    forall r, l | r in request && Handles(dom, l, r) ensures GrantedOn(dom, inside + ([child] + from), l, r) {
      LayerGainsNothing(dom, child, from, to, inside, l, r);
    }
  }
}
