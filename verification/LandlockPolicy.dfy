/**
 What a Landlock domain means.

 A domain is a stack of layers. Layer `l` restricts the rights in `handled[l]`, and always REFER.
 A rule gives an object, per layer, a set of rights. A right is granted on a path when every layer
 that restricts it grants it somewhere on the way from the path's dentry up to the real root.
 The bit masks of the C code are sets here: of access-bit numbers, and of layer numbers.
 */
module LandlockPolicy {
  import opened Basics

  const NUM_ACCESS_FS := 15

  type Right = r: int | 0 <= r < NUM_ACCESS_FS

  type AccessMask = set<Right>

  type Mask = set<nat>

  const EXECUTE: Right := 0
  const WRITE_FILE: Right := 1
  const READ_FILE: Right := 2
  const READ_DIR: Right := 3
  const REMOVE_DIR: Right := 4
  const REMOVE_FILE: Right := 5
  const MAKE_CHAR: Right := 6
  const MAKE_DIR: Right := 7
  const MAKE_REG: Right := 8
  const MAKE_SOCK: Right := 9
  const MAKE_FIFO: Right := 10
  const MAKE_BLOCK: Right := 11
  const MAKE_SYM: Right := 12
  const REFER: Right := 13
  const TRUNCATE: Right := 14

  const MASK_ACCESS_FS: AccessMask := set r: Right | 0 <= r < NUM_ACCESS_FS

  /** The rights have 15 different bits, and these are all. */
  lemma AllRights()
    ensures MASK_ACCESS_FS == {EXECUTE, WRITE_FILE, READ_FILE, READ_DIR, REMOVE_DIR, REMOVE_FILE, MAKE_CHAR, MAKE_DIR, MAKE_REG, MAKE_SOCK,
                               MAKE_FIFO, MAKE_BLOCK, MAKE_SYM, REFER, TRUNCATE}
  {
  }

  const ACCESS_FILE: AccessMask := {EXECUTE, WRITE_FILE, READ_FILE, TRUNCATE}

  const ACCESS_INITIALLY_DENIED: AccessMask := {REFER}

  const MAX_NUM_LAYERS := 16

  type Object = int

  /** One entry of a rule; level 0 marks a rule of a ruleset that is not yet a domain. */
  datatype Layer = Layer(level: nat, access: AccessMask)

  type Rule = seq<Layer>

  datatype Domain = Domain(handled: seq<AccessMask>, rules: map<Object, Rule>)

  datatype Kind = Directory | Symlink | CharDevice | BlockDevice | Fifo | Socket | Regular

  /** A directory entry; `obj` is the Landlock object tied to its inode, if any. */
  datatype Dentry = Negative | Positive(kind: Kind, obj: Option<Object>)
  {
    predicate IsDir() { Positive? && kind == Directory }
  }

  function FindRule(dom: Domain, d: Dentry): Option<Rule>
  {
    if d.Positive? && d.obj.Some? && d.obj.value in dom.rules then Some(dom.rules[d.obj.value]) else None
  }

  // ---------------------------------------------------------------- meaning

  predicate Handles(dom: Domain, l: nat, r: Right)
  {
    l < |dom.handled| && (r in dom.handled[l] || r in ACCESS_INITIALLY_DENIED)
  }

  predicate RuleGrants(rule: Rule, l: nat, r: Right)
  {
    exists i :: 0 <= i < |rule| && rule[i].level == l + 1 && r in rule[i].access
  }

  predicate Grants(dom: Domain, d: Dentry, l: nat, r: Right)
  {
    FindRule(dom, d).Some? && RuleGrants(FindRule(dom, d).value, l, r)
  }

  /** Layer `l` grants `r` somewhere on `path`. */
  predicate GrantedOn(dom: Domain, path: seq<Dentry>, l: nat, r: Right)
  {
    exists i :: 0 <= i < |path| && Grants(dom, path[i], l, r)
  }

  /** Every layer that restricts a requested right grants it on the path. */
  ghost predicate Allowed(dom: Domain, path: seq<Dentry>, request: AccessMask)
  {
    forall r, l :: r in request && Handles(dom, l, r) ==> GrantedOn(dom, path, l, r)
  }

  // The same, read off from the lists of handled rights and of rules.

  /** The layer restricts the right: it handles it, or it is REFER, which every layer restricts. */
  predicate Constrains(dom: Domain, l: nat, r: Right)
  {
    l < |dom.handled| && (r in dom.handled[l] || r == 13)
  }

  /** No rule of an object on the path has `r` in its entry for layer `l`. */
  ghost predicate NeverGiven(dom: Domain, path: seq<Dentry>, l: nat, r: Right)
  {
    forall k, o, i :: 0 <= k < |path| && path[k].Positive? && path[k].obj == Some(o) && o in dom.rules && 0 <= i < |dom.rules[o]| ==>
      dom.rules[o][i].level != l + 1 || r !in dom.rules[o][i].access
  }

  lemma GivenExactly(dom: Domain, path: seq<Dentry>, l: nat, r: Right)
    ensures GrantedOn(dom, path, l, r) <==> !NeverGiven(dom, path, l, r)
  {
    if GrantedOn(dom, path, l, r) {
      var k :| 0 <= k < |path| && Grants(dom, path[k], l, r);
      var o := path[k].obj.value;
      var i :| 0 <= i < |dom.rules[o]| && dom.rules[o][i].level == l + 1 && r in dom.rules[o][i].access;
      assert path[k].obj == Some(o);
    }
    if !NeverGiven(dom, path, l, r) {
      var k, o, i :| 0 <= k < |path| && path[k].Positive? && path[k].obj == Some(o) && o in dom.rules && 0 <= i < |dom.rules[o]|
        && !(dom.rules[o][i].level != l + 1 || r !in dom.rules[o][i].access);
      assert RuleGrants(dom.rules[o], l, r);
      assert Grants(dom, path[k], l, r);
    }
  }

  /** Some layer restricts a requested right, and no rule on the path has it for that layer. */
  ghost predicate Refused(dom: Domain, path: seq<Dentry>, request: AccessMask)
  {
    exists l: nat, r: Right :: r in request && Constrains(dom, l, r) && NeverGiven(dom, path, l, r)
  }

  /** A request is allowed exactly if it is not refused; a right other than REFER that no layer handles is always allowed. */
  lemma RefusedExactly(dom: Domain, path: seq<Dentry>, request: AccessMask)
    ensures Allowed(dom, path, request) <==> !Refused(dom, path, request)
    ensures 13 !in request && (forall l, r :: 0 <= l < |dom.handled| && r in request ==> r !in dom.handled[l]) ==> Allowed(dom, path, request)
  {
    hide NeverGiven, GrantedOn;
    forall l: nat, r: Right ensures Handles(dom, l, r) <==> Constrains(dom, l, r) {
    }
    forall l: nat, r: Right ensures GrantedOn(dom, path, l, r) <==> !NeverGiven(dom, path, l, r) {
      GivenExactly(dom, path, l, r);
    }
  }

  /** The layers that still forbid `r` after the dentries of `path`. */
  function Remaining(dom: Domain, path: seq<Dentry>, r: Right): Mask
  {
    set l | 0 <= l < |dom.handled| && Handles(dom, l, r) && !GrantedOn(dom, path, l, r)
  }

  lemma AllowedRemaining(dom: Domain, path: seq<Dentry>, request: AccessMask)
    ensures Allowed(dom, path, request) <==> forall r <- request :: Remaining(dom, path, r) == {}
  {
    if Allowed(dom, path, request) {
      forall r <- request ensures Remaining(dom, path, r) == {} {
      }
    }
    if forall r <- request :: Remaining(dom, path, r) == {} {
      forall r, l | r in request && Handles(dom, l, r) ensures GrantedOn(dom, path, l, r) {
        assert l !in Remaining(dom, path, r);
      }
    }
  }

  lemma GrantedConcat(dom: Domain, a: seq<Dentry>, b: seq<Dentry>, l: nat, r: Right)
    ensures GrantedOn(dom, a + b, l, r) <==> GrantedOn(dom, a, l, r) || GrantedOn(dom, b, l, r)
  {
    if GrantedOn(dom, a, l, r) {
      var i :| 0 <= i < |a| && Grants(dom, a[i], l, r);
      assert (a + b)[i] == a[i];
    }
    if GrantedOn(dom, b, l, r) {
      var i :| 0 <= i < |b| && Grants(dom, b[i], l, r);
      assert (a + b)[|a| + i] == b[i];
    }
  }

  lemma GrantedOne(dom: Domain, d: Dentry, l: nat, r: Right)
    ensures GrantedOn(dom, [d], l, r) <==> Grants(dom, d, l, r)
  {
    assert [d][0] == d;
  }

  /** One more dentry on the path removes the layers that its rule grants. */
  lemma RemainingStep(dom: Domain, path: seq<Dentry>, d: Dentry, r: Right)
    ensures Remaining(dom, path + [d], r) == set l | l in Remaining(dom, path, r) && !Grants(dom, d, l, r)
  {
    forall l: nat ensures GrantedOn(dom, path + [d], l, r) <==> GrantedOn(dom, path, l, r) || Grants(dom, d, l, r) {
      GrantedConcat(dom, path, [d], l, r);
      GrantedOne(dom, d, l, r);
    }
  }

  lemma RemainingMono(dom: Domain, a: seq<Dentry>, b: seq<Dentry>, r: Right)
    ensures Remaining(dom, a + b, r) <= Remaining(dom, a, r)
  {
    forall l: nat | GrantedOn(dom, a, l, r) ensures GrantedOn(dom, a + b, l, r) {
      GrantedConcat(dom, a, b, l, r);
    }
  }

  /** More of a path can only allow more. */
  lemma AllowedMono(dom: Domain, a: seq<Dentry>, b: seq<Dentry>, request: AccessMask)
    requires Allowed(dom, a, request)
    ensures Allowed(dom, a + b, request)
  {
    forall r, l | r in request && Handles(dom, l, r) ensures GrantedOn(dom, a + b, l, r) {
      GrantedConcat(dom, a, b, l, r);
    }
  }
}
