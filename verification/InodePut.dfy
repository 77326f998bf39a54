/**
 Every step of landlock_put_object and release_inode keeps the invariant.
 */
module InodePut {
  import opened Basics
  import opened InodeModel
  import opened InodeInv
  import opened InodeSteps

  lemma StartPutKeeps(s: State, t: Thread, o: Object, key: nat, s': State)
    requires Inv(s) && StartPut(s, t, o, key, s')
    ensures Inv(s')
  {
    hide Inv, Exact, Own, Calm, Guar, Pre;
    InvPre(s, t, Some(o), None);
    InvExact(s);
    StartPutOwn(s, t, o, key, s');
    StartPutGuar(s, t, o, key, s');
    CalmElsewhere(s, s', t, None, None);
    Keeps(s, s', t, None, None);
  }

  lemma StartPutOwn(s: State, t: Thread, o: Object, key: nat, s': State)
    requires Pre(s, t, Some(o), None) && StartPut(s, t, o, key, s')
    ensures Own(s, s', t, None, None) && InHand(o, t) !in s.uses
  {
    hide RefsExact, UsesExact, PendingExact, GetOk, UnmountOk;
    assert UseOk(s, User(o, key));
    assert InHand(o, t) in s.uses ==> UseOk(s, InHand(o, t));
  }

  lemma StartPutGuar(s: State, t: Thread, o: Object, key: nat, s': State)
    requires Exact(s) && StartPut(s, t, o, key, s') && InHand(o, t) !in s.uses
    ensures Guar(s, s', t, None, None) && Exact(s')
  {
    hide RefsExact, UsesExact, PendingExact;
    RefKept(s, s');
    UsePassed(s, s', User(o, key), InHand(o, t));
    PendingKept(s, s', t);
  }

  lemma PutKeeps(s: State, t: Thread, o: Object, s': State)
    requires Inv(s) && PutStep(s, t, o, s')
    ensures Inv(s')
  {
    hide Inv, Exact, Own, Calm, Guar, Pre;
    InvPre(s, t, Some(o), None);
    InvExact(s);
    PutOwn(s, t, o, s');
    if s.objs[o].usage > 1 {
      UseGone(s, s', t, o, s.objs[o].(usage := s.objs[o].usage - 1), Idle);
      CalmElsewhere(s, s', t, Some(o), None);
      Keeps(s, s', t, Some(o), None);
    } else {
      PcOnly(s, s', t, WantObject(o));
      CalmElsewhere(s, s', t, None, None);
      Keeps(s, s', t, None, None);
    }
  }

  /** A step that neither frees nor ties anything leaves an object in order. */
  lemma PutOwn(s: State, t: Thread, o: Object, s': State)
    requires Pre(s, t, Some(o), None) && PutStep(s, t, o, s')
    ensures Own(s, s', t, Some(o), None) && Own(s, s', t, None, None) && InHand(o, t) in s.uses
    ensures o in s'.objs && (Settled(s, o) ==> Settled(s', o))
  {
    hide RefsExact, UsesExact, PendingExact, GetOk, UnmountOk;
  }

  lemma WantObjectKeeps(s: State, t: Thread, o: Object, s': State)
    requires Inv(s) && WantObjectStep(s, t, o, s')
    ensures Inv(s')
  {
    hide Inv, Exact, Own, Calm, Guar, Pre;
    InvPre(s, t, Some(o), None);
    InvExact(s);
    WantObjectOwn(s, t, o, s');
    UseGone(s, s', t, o, s'.objs[o], PcOf(s', t));
    CalmElsewhere(s, s', t, Some(o), None);
    Keeps(s, s', t, Some(o), None);
  }

  lemma WantObjectOwn(s: State, t: Thread, o: Object, s': State)
    requires Pre(s, t, Some(o), None) && WantObjectStep(s, t, o, s')
    ensures Own(s, s', t, Some(o), None) && InHand(o, t) in s.uses
    ensures o in s'.objs && (Settled(s, o) ==> Settled(s', o))
  {
    hide RefsExact, UsesExact, PendingExact, GetOk, UnmountOk;
  }

  lemma ReleaseKeeps(s: State, t: Thread, o: Object, s': State)
    requires Inv(s) && ReleaseStep(s, t, o, s')
    ensures Inv(s')
  {
    hide Inv, RefsExact, UsesExact, PendingExact, Own, Calm, Guar, Pre;
    InvPre(s, t, Some(o), None);
    InvExact(s);
    ReleaseOwn(s, t, o, s');
    ObjPc(s, s', t, o, s'.objs[o], PcOf(s', t));
    PendingKept(s, s', t);
    CalmElsewhere(s, s', t, Some(o), None);
    Keeps(s, s', t, Some(o), None);
  }

  lemma ReleaseOwn(s: State, t: Thread, o: Object, s': State)
    requires Pre(s, t, Some(o), None) && ReleaseStep(s, t, o, s')
    ensures Own(s, s', t, Some(o), None) && ObjGuar(s.objs[o], s'.objs[o], t, true)
    ensures Settled(s, o) ==> Settled(s', o)
  {
    hide RefsExact, UsesExact, PendingExact, GetOk, UnmountOk;
  }

  lemma CountKeeps(s: State, t: Thread, o: Object, i: Inode, s': State)
    requires Inv(s) && CountStep(s, t, o, i, s')
    ensures Inv(s')
  {
    hide Inv, RefsExact, UsesExact, PendingExact, Own, Calm, Guar, Pre;
    InvPre(s, t, Some(o), None);
    InvExact(s);
    CountOwn(s, t, o, i, s');
    ObjPc(s, s', t, o, s'.objs[o], PcOf(s', t));
    PendingMore(s, s', t, s.inos[i].sb);
    CalmElsewhere(s, s', t, Some(o), None);
    Keeps(s, s', t, Some(o), None);
  }

  lemma CountOwn(s: State, t: Thread, o: Object, i: Inode, s': State)
    requires Pre(s, t, Some(o), None) && CountStep(s, t, o, i, s')
    ensures Own(s, s', t, Some(o), None) && ObjGuar(s.objs[o], s'.objs[o], t, true)
    ensures Settled(s, o) ==> Settled(s', o)
  {
    hide RefsExact, UsesExact, PendingExact, GetOk, UnmountOk;
  }

  lemma ResetKeeps(s: State, t: Thread, o: Object, i: Inode, sb: Sb, s': State)
    requires Inv(s) && ResetStep(s, t, o, i, sb, s')
    ensures Inv(s')
  {
    hide Inv, RefsExact, UsesExact, PendingExact, Own, Calm, Guar, Pre;
    InvPre(s, t, Some(o), Some(i));
    InvExact(s);
    ResetOwn(s, t, o, i, sb, s');
    TieReset(s, s', t, o, i, PcOf(s', t));
    PendingKept(s, s', t);
    CalmElsewhere(s, s', t, Some(o), Some(i));
    Keeps(s, s', t, Some(o), Some(i));
  }

  lemma ResetOwn(s: State, t: Thread, o: Object, i: Inode, sb: Sb, s': State)
    requires Pre(s, t, Some(o), Some(i)) && ResetStep(s, t, o, i, sb, s')
    ensures Own(s, s', t, Some(o), Some(i)) && s.objs[o].home == i && s.objs[o].phase == Taken(t) && s.inos[i].weak == Some(o)
    ensures Settled(s, o) ==> Settled(s', o)
  {
    hide RefsExact, UsesExact, PendingExact, GetOk, UnmountOk;
  }

  lemma IputKeeps(s: State, t: Thread, o: Object, i: Inode, sb: Sb, s': State)
    requires Inv(s) && IputStep(s, t, o, i, sb, s')
    ensures Inv(s')
  {
    hide Inv, RefsExact, UsesExact, PendingExact, Own, Calm, Guar, Pre;
    InvPre(s, t, Some(o), None);
    InvExact(s);
    IputOwn(s, t, o, i, sb, s');
    TieDropped(s, s', t, o, i, PcOf(s', t));
    PendingKept(s, s', t);
    CalmElsewhere(s, s', t, Some(o), None);
    Keeps(s, s', t, Some(o), None);
  }

  lemma IputOwn(s: State, t: Thread, o: Object, i: Inode, sb: Sb, s': State)
    requires Pre(s, t, Some(o), None) && IputStep(s, t, o, i, sb, s')
    ensures Own(s, s', t, Some(o), None) && s.objs[o].home == i && s.objs[o].phase == Cleared(t) && Tie(i, o) in s.refs
    ensures Settled(s, o) ==> Settled(s', o)
  {
    hide RefsExact, UsesExact, PendingExact, GetOk, UnmountOk;
  }

  lemma ReturnKeeps(s: State, t: Thread, o: Object, sb: Sb, s': State)
    requires Inv(s) && ReturnStep(s, t, o, sb, s')
    ensures Inv(s')
  {
    hide Inv, Own, Calm, Pre, RefsExact, UsesExact, PendingExact;
    InvPre(s, t, None, None);
    InvExact(s);
    ReturnOwn(s, t, o, sb, s');
    PendingLess(s, s', t, sb);
    RefKept(s, s');
    UseKept(s, s');
    CalmElsewhere(s, s', t, None, None);
    Keeps(s, s', t, None, None);
  }

  lemma ReturnOwn(s: State, t: Thread, o: Object, sb: Sb, s': State)
    requires Pre(s, t, None, None) && ReturnStep(s, t, o, sb, s')
    ensures Own(s, s', t, None, None)
  {
    hide RefsExact, UsesExact, PendingExact, GetOk, UnmountOk;
  }
}
