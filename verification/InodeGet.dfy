/**
 Every step of get_inode_object keeps the invariant.
 */
module InodeGet {
  import opened Basics
  import opened InodeModel
  import opened InodeInv
  import opened InodeSteps

  lemma StartGetKeeps(s: State, t: Thread, i: Inode, s': State)
    requires Inv(s) && StartGet(s, t, i, s')
    ensures Inv(s')
  {
    hide Inv, Exact, Own, Calm, Guar, Pre;
    InvPre(s, t, None, None);
    InvExact(s);
    StartGetOwn(s, t, i, s');
    RefNew(s, s', t, Path(i, t), Load(i));
    StartGetCalm(s, t, i, s');
    Keeps(s, s', t, None, None);
  }

  lemma StartGetOwn(s: State, t: Thread, i: Inode, s': State)
    requires Pre(s, t, None, None) && StartGet(s, t, i, s')
    ensures Path(i, t) !in s.refs && Own(s, s', t, None, None)
  {
    hide RefsExact, UsesExact, PendingExact, PutOk, UnmountOk;
    assert Path(i, t) in s.refs ==> RefOk(s, Path(i, t));
  }

  lemma StartGetCalm(s: State, t: Thread, i: Inode, s': State)
    requires Inv(s) && StartGet(s, t, i, s')
    ensures Calm(s, s', t, None)
  {
    hide Settled, ThreadOk, ObjOk, InoOk, RefOk, UseOk, RefsExact, UsesExact, PendingExact;
    forall k: Thread ensures PairOk(s', t, k) && PairOk(s', k, t) {
      assert PairOk(s, k, t);
    }
  }

  lemma LoadKeeps(s: State, t: Thread, i: Inode, s': State)
    requires Inv(s) && LoadStep(s, t, i, s')
    ensures Inv(s')
  {
    hide Inv, Exact, Own, Calm, Guar, Pre;
    InvPre(s, t, s.inos[i].weak, Some(i));
    InvExact(s);
    PcOnly(s, s', t, PcOf(s', t));
    LoadOwn(s, t, i, s');
    CalmElsewhere(s, s', t, None, None);
    Keeps(s, s', t, None, None);
  }

  lemma LoadOwn(s: State, t: Thread, i: Inode, s': State)
    requires i in s.inos && Pre(s, t, s.inos[i].weak, Some(i)) && LoadStep(s, t, i, s')
    ensures Own(s, s', t, None, None)
  {
    hide RefsExact, UsesExact, PendingExact, PutOk, UnmountOk;
  }

  lemma TryGetKeeps(s: State, t: Thread, i: Inode, o: Object, key: nat, s': State)
    requires Inv(s) && TryGetStep(s, t, i, o, key, s')
    ensures Inv(s')
  {
    hide Inv, Exact, Own, Calm, Guar, Pre;
    InvPre(s, t, Some(o), None);
    InvExact(s);
    TryGetOwn(s, t, i, o, key, s');
    if s.objs[o].usage > 0 {
      TryGetGuar(s, t, i, o, key, s');
      TryGetExact(s, t, i, o, key, s');
    } else {
      PcOnly(s, s', t, Spin(i, o));
    }
    CalmElsewhere(s, s', t, None, None);
    Keeps(s, s', t, None, None);
  }

  lemma TryGetGuar(s: State, t: Thread, i: Inode, o: Object, key: nat, s': State)
    requires TryGetStep(s, t, i, o, key, s') && s.objs[o].usage > 0
    ensures Guar(s, s', t, None, None)
  {
  }

  lemma TryGetExact(s: State, t: Thread, i: Inode, o: Object, key: nat, s': State)
    requires Exact(s) && TryGetStep(s, t, i, o, key, s') && s.objs[o].usage > 0 && Path(i, t) in s.refs
    ensures Exact(s')
  {
    hide RefsExact, UsesExact, PendingExact;
    RefDropped(s, s', Path(i, t));
    UseAdded(s, s', User(o, key));
    PendingKept(s, s', t);
  }

  lemma TryGetOwn(s: State, t: Thread, i: Inode, o: Object, key: nat, s': State)
    requires Pre(s, t, Some(o), None) && TryGetStep(s, t, i, o, key, s')
    ensures Own(s, s', t, None, None) && Path(i, t) in s.refs
  {
    hide RefsExact, UsesExact, PendingExact, PutOk, UnmountOk;
    forall r <- s'.refs | Owns(t, r) ensures RefOk(s', r) {
      assert RefOk(s, r);
    }
  }

  lemma SpinKeeps(s: State, t: Thread, i: Inode, o: Object, s': State)
    requires Inv(s) && SpinStep(s, t, i, o, s')
    ensures Inv(s')
  {
    hide Inv, Exact, Own, Calm, Guar, Pre;
    InvPre(s, t, Some(o), None);
    InvExact(s);
    PcOnly(s, s', t, Load(i));
    SpinOwn(s, t, i, o, s');
    CalmElsewhere(s, s', t, None, None);
    Keeps(s, s', t, None, None);
  }

  lemma SpinOwn(s: State, t: Thread, i: Inode, o: Object, s': State)
    requires Pre(s, t, Some(o), None) && SpinStep(s, t, i, o, s')
    ensures Own(s, s', t, None, None)
  {
    hide RefsExact, UsesExact, PendingExact, PutOk, UnmountOk;
  }

  lemma CreateKeeps(s: State, t: Thread, i: Inode, n: Object, s': State)
    requires Inv(s) && CreateStep(s, t, i, n, s')
    ensures Inv(s')
  {
    hide Inv, Exact, Own, Calm, Guar, Pre;
    InvPre(s, t, Some(n), Some(i));
    InvExact(s);
    if PcOf(s', t) == Idle {
      InvPre(s, t, None, Some(i));
      CreateFailed(s, t, i, s');
      RefGone(s, s', t, Path(i, t), Idle);
      CalmElsewhere(s, s', t, None, None);
      Keeps(s, s', t, None, None);
    } else {
      CreateGuar(s, t, i, n, s');
      CreateOwn(s, t, i, n, s');
      CreateCalm(s, t, i, n, s');
      Keeps(s, s', t, Some(n), None);
    }
  }

  lemma CreateFailed(s: State, t: Thread, i: Inode, s': State)
    requires Pre(s, t, None, Some(i)) && PcOf(s, t) == Create(i) && i in s.inos && s.inos[i].count > 0
    requires s' == SetPc(DropRef(s, Path(i, t)), t, Idle)
    ensures Own(s, s', t, None, None) && Path(i, t) in s.refs
  {
    hide RefsExact, UsesExact, PendingExact, PutOk, UnmountOk;
  }

  lemma CreateGuar(s: State, t: Thread, i: Inode, n: Object, s': State)
    requires Exact(s) && CreateStep(s, t, i, n, s') && PcOf(s', t) != Idle
    ensures Guar(s, s', t, Some(n), None) && Exact(s')
  {
    hide RefsExact, UsesExact, PendingExact;
    assert InHand(n, t) !in s.uses by { NoUse(s, InHand(n, t)); }
    RefKept(s, s');
    UseAdded(s, s', InHand(n, t));
    PendingKept(s, s', t);
  }

  lemma NoUse(s: State, u: Use)
    requires UsesExact(s) && u.obj !in s.objs
    ensures u !in s.uses
  {
  }

  lemma CreateOwn(s: State, t: Thread, i: Inode, n: Object, s': State)
    requires Pre(s, t, Some(n), Some(i)) && CreateStep(s, t, i, n, s') && PcOf(s', t) != Idle
    ensures Own(s, s', t, Some(n), None)
  {
    hide RefsExact, UsesExact, PendingExact, PutOk, UnmountOk;
    assert i in s.inos && (s.inos[i].weak.Some? ==> s.inos[i].weak.value in s.objs);
    forall r <- s'.refs | Owns(t, r) || (r.Tie? && r.obj == n) ensures RefOk(s', r) {
      assert RefOk(s, r);
    }
  }

  /** Who unmounts in peace meets no new object. */
  lemma CreateCalm(s: State, t: Thread, i: Inode, n: Object, s': State)
    requires Inv(s) && CreateStep(s, t, i, n, s') && PcOf(s', t) != Idle
    ensures Calm(s, s', t, Some(n))
  {
    hide Settled, ThreadOk, ObjOk, InoOk, RefOk, UseOk, RefsExact, UsesExact, PendingExact;
    forall k: Thread ensures PairOk(s', t, k) && PairOk(s', k, t) && QuietOk(s', k, n) {
      assert PairOk(s, k, t);
    }
  }

  lemma WantInodeKeeps(s: State, t: Thread, i: Inode, n: Object, s': State)
    requires Inv(s) && WantInodeStep(s, t, i, n, s')
    ensures Inv(s')
  {
    hide Inv, Exact, Own, Calm, Guar, Pre;
    InvPre(s, t, Some(n), Some(i));
    InvExact(s);
    if s.inos[i].weak.Some? {
      WantInodeLost(s, t, i, n, s');
      CalmElsewhere(s, s', t, Some(n), None);
      Keeps(s, s', t, Some(n), None);
    } else {
      At(s, t);
      WantInodeGuar(s, t, i, n, s');
      WantInodeOwn(s, t, i, n, s');
      WantInodeExact(s, t, i, n, s');
      CalmElsewhere(s, s', t, Some(n), Some(i));
      Keeps(s, s', t, Some(n), Some(i));
    }
  }

  lemma WantInodeLost(s: State, t: Thread, i: Inode, n: Object, s': State)
    requires Pre(s, t, Some(n), Some(i)) && WantInodeStep(s, t, i, n, s') && s.inos[i].weak.Some?
    ensures Guar(s, s', t, Some(n), None) && Exact(s') && Own(s, s', t, Some(n), None)
    ensures !Settled(s, n)
  {
    hide RefsExact, UsesExact, PendingExact, PutOk, UnmountOk;
    WantInodeLostGuar(s, t, i, n, s');
    hide Guar, Exact;
  }

  lemma WantInodeLostGuar(s: State, t: Thread, i: Inode, n: Object, s': State)
    requires Exact(s) && ThreadOk(s, t) && WantInodeStep(s, t, i, n, s') && s.inos[i].weak.Some?
    ensures Guar(s, s', t, Some(n), None) && Exact(s')
  {
    hide Guar, Exact;
    UseGone(s, s', t, n, s.objs[n].(usage := s.objs[n].usage - 1, phase := Gone), Load(i));
  }

  lemma WantInodeGuar(s: State, t: Thread, i: Inode, n: Object, s': State)
    requires ThreadOk(s, t) && WantInodeStep(s, t, i, n, s') && s.inos[i].weak.None?
    ensures Guar(s, s', t, Some(n), Some(i))
  {
    hide PutOk, UnmountOk;
  }

  lemma WantInodeExact(s: State, t: Thread, i: Inode, n: Object, s': State)
    requires Exact(s) && WantInodeStep(s, t, i, n, s') && s.inos[i].weak.None? && Tie(i, n) !in s.refs
    ensures Exact(s')
  {
    hide RefsExact, UsesExact, PendingExact;
    RefAdded(s, s', Tie(i, n));
    UseKept(s, s');
    PendingKept(s, s', t);
  }

  lemma WantInodeOwn(s: State, t: Thread, i: Inode, n: Object, s': State)
    requires Pre(s, t, Some(n), Some(i)) && WantInodeStep(s, t, i, n, s') && s.inos[i].weak.None?
    ensures Own(s, s', t, Some(n), Some(i)) && !Settled(s, n) && Tie(i, n) !in s.refs
  {
    hide RefsExact, UsesExact, PendingExact, PutOk, UnmountOk;
    assert RefOk(s, Path(i, t));
    assert Tie(i, n) in s.refs ==> RefOk(s, Tie(i, n));
  }

  lemma AssignKeeps(s: State, t: Thread, i: Inode, n: Object, key: nat, s': State)
    requires Inv(s) && AssignStep(s, t, i, n, key, s')
    ensures Inv(s')
  {
    hide Inv, Exact, Own, Calm, Guar, Pre;
    InvPre(s, t, Some(n), Some(i));
    InvExact(s);
    At(s, t);
    AssignGuar(s, t, i, n, key, s');
    AssignOwn(s, t, i, n, key, s');
    AssignExact(s, t, i, n, key, s');
    CalmElsewhere(s, s', t, Some(n), Some(i));
    Keeps(s, s', t, Some(n), Some(i));
  }

  lemma AssignGuar(s: State, t: Thread, i: Inode, n: Object, key: nat, s': State)
    requires ThreadOk(s, t) && AssignStep(s, t, i, n, key, s')
    ensures Guar(s, s', t, Some(n), Some(i))
  {
    hide PutOk, UnmountOk;
  }

  lemma AssignExact(s: State, t: Thread, i: Inode, n: Object, key: nat, s': State)
    requires Exact(s) && AssignStep(s, t, i, n, key, s') && Path(i, t) in s.refs && InHand(n, t) in s.uses
    ensures Exact(s')
  {
    hide RefsExact, UsesExact, PendingExact;
    RefDropped(s, s', Path(i, t));
    UsePassed(s, s', InHand(n, t), User(n, key));
    PendingKept(s, s', t);
  }

  lemma AssignOwn(s: State, t: Thread, i: Inode, n: Object, key: nat, s': State)
    requires Pre(s, t, Some(n), Some(i)) && AssignStep(s, t, i, n, key, s')
    ensures Own(s, s', t, Some(n), Some(i)) && !Settled(s, n) && Path(i, t) in s.refs && InHand(n, t) in s.uses
  {
    UsedCounted(s, InHand(n, t));
    hide RefsExact, UsesExact, PendingExact, PutOk, UnmountOk;
    assert RefOk(s, Path(i, t)) && RefOk(s, Tie(i, n));
    forall r <- s'.refs | Owns(t, r) || (r.Tie? && r.obj == n) ensures RefOk(s', r) {
      assert RefOk(s, r);
    }
    forall u <- s'.uses | u !in s.uses || (u.InHand? && u.thread == t) ensures UseOk(s', u) {
      assert u in s.uses ==> UseOk(s, u);
    }
  }
}
