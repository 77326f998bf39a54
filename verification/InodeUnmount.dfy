/**
 Every step of hook_sb_delete keeps the invariant.
 */
module InodeUnmount {
  import opened Basics
  import opened InodeModel
  import opened InodeInv
  import opened InodeSteps

  /** Whoever goes on unmounting the same superblock stays the only one. */
  lemma CalmPairs(s: State, s': State, t: Thread, o: Option<Object>, i: Option<Inode>)
    requires Inv(s) && Guar(s, s', t, o, i)
    requires PcOf(s, t).Unmounting() && (PcOf(s', t).Unmounting() ==> PcOf(s', t).w.sb == PcOf(s, t).w.sb) && !PcOf(s', t).Getting()
    ensures forall k: Thread :: PairOk(s', t, k) && PairOk(s', k, t)
  {
    hide Settled, ThreadOk, ObjOk, InoOk, RefOk, UseOk, RefsExact, UsesExact, PendingExact;
    forall k: Thread ensures PairOk(s', t, k) && PairOk(s', k, t) {
      GettingThere(s, k);
      assert PairOk(s, t, k) && PairOk(s, k, t);
    }
  }

  /** What is settled stays so while `t` goes on unmounting. */
  lemma StaysSettled(s: State, s': State, t: Thread, o: Option<Object>, i: Option<Inode>, k: Object)
    requires Guar(s, s', t, o, i) && k in s.objs && Settled(s, k) && o != Some(k) && PcOf(s, t).Unmounting()
    ensures k in s'.objs && Settled(s', k)
  {
  }

  /** The object is the unmounting thread's business, and nobody can be about to tie it. */
  ghost predicate Mine(s: State, t: Thread, k: Object)
  {
    && PcOf(s, t).Unmounting() && PcOf(s, t).w.sb !in s.loud
    && k in s.objs && s.objs[k].home in s.inos && s.inos[s.objs[k].home].sb == PcOf(s, t).w.sb
  }

  /** In peace, an object that is not tied any more has been settled, or is being settled by a release that is counted. */
  lemma UntiedSettled(s: State, t: Thread, k: Object)
    requires Inv(s) && Mine(s, t, k)
    requires !s.objs[k].phase.Tied?
    requires s.objs[k].phase.Taken? ==> s.objs[k].locker.None? && !(PcOf(s, t).ResetU? && PcOf(s, t).obj == k)
    requires s.objs[k].phase.Cleared? ==> !(PcOf(s, t).IputU? && PcOf(s, t).obj == k)
    ensures Settled(s, k)
  {
    hide InoOk, RefOk, UseOk, QuietOk, UsesExact, PendingExact, RefsExact;
    assert ObjOk(s, k);
    var p := s.objs[k].phase;
    if p.Fresh? || p.Held? || p.Taken? || p.Cleared? {
      assert PairOk(s, t, p.thread) && ThreadOk(s, p.thread);
    }
  }

  /** An inode without a reference has no tied object. */
  lemma UnusedSettled(s: State, t: Thread, k: Object)
    requires Inv(s) && Mine(s, t, k)
    requires s.inos[s.objs[k].home].count == 0 || !s.inos[s.objs[k].home].alive
    ensures Settled(s, k)
  {
    hide Inv, Settled, ObjOk, RefOk;
    ObjAt(s, k);
    TieThere(s, k);
    UntiedSettled(s, t, k);
  }

  lemma TieThere(s: State, k: Object)
    requires Inv(s) && k in s.objs
    ensures HasTie(s.objs[k].phase) ==>
      s.objs[k].home in s.inos && s.inos[s.objs[k].home].count > 0 && s.inos[s.objs[k].home].alive
  {
    hide Inv;
    ObjAt(s, k);
    if HasTie(s.objs[k].phase) {
      RefAt(s, Tie(s.objs[k].home, k));
    }
  }

  lemma LoudKeeps(s: State, s': State, sb: Sb)
    requires Inv(s) && s' == s.(loud := s'.loud) && forall k: Sb :: k != sb ==> (k in s'.loud <==> k in s.loud)
    requires forall t: Thread :: PcOf(s, t).Unmounting() ==> PcOf(s, t).w.sb != sb
    ensures Inv(s')
  {
    hide RefOk, UseOk, ObjOk, InoOk, ThreadOk, PairOk, QuietOk;
    InvExact(s);
    forall r <- s'.refs ensures RefOk(s', r) { LoudRef(s, s', r); }
    forall u <- s'.uses ensures UseOk(s', u) { LoudUse(s, s', u); }
    forall k <- s'.objs ensures ObjOk(s', k) { LoudObj(s, s', k); }
    forall k <- s'.inos ensures InoOk(s', k) { LoudIno(s, s', k); }
    forall k: Thread ensures ThreadOk(s', k) { LoudThread(s, s', k); }
    forall k: Thread, k': Thread ensures PairOk(s', k, k') { LoudPair(s, s', sb, k, k'); }
    forall k: Thread, k': Object ensures QuietOk(s', k, k') { LoudQuiet(s, s', sb, k, k'); }
  }

  lemma LoudRef(s: State, s': State, r: Ref)
    requires s' == s.(loud := s'.loud) && RefOk(s, r)
    ensures RefOk(s', r)
  {
  }

  lemma LoudUse(s: State, s': State, u: Use)
    requires s' == s.(loud := s'.loud) && UseOk(s, u)
    ensures UseOk(s', u)
  {
  }

  lemma LoudObj(s: State, s': State, k: Object)
    requires s' == s.(loud := s'.loud) && k in s.objs && ObjOk(s, k)
    ensures ObjOk(s', k)
  {
  }

  lemma LoudIno(s: State, s': State, k: Inode)
    requires s' == s.(loud := s'.loud) && k in s.inos && InoOk(s, k)
    ensures InoOk(s', k)
  {
  }

  lemma LoudThread(s: State, s': State, t: Thread)
    requires s' == s.(loud := s'.loud) && ThreadOk(s, t)
    ensures ThreadOk(s', t)
  {
  }

  lemma LoudPair(s: State, s': State, sb: Sb, t: Thread, t': Thread)
    requires s' == s.(loud := s'.loud) && (forall k: Sb :: k != sb ==> (k in s'.loud <==> k in s.loud)) && PairOk(s, t, t')
    requires PcOf(s, t).Unmounting() ==> PcOf(s, t).w.sb != sb
    ensures PairOk(s', t, t')
  {
  }

  lemma LoudQuiet(s: State, s': State, sb: Sb, t: Thread, o: Object)
    requires s' == s.(loud := s'.loud) && (forall k: Sb :: k != sb ==> (k in s'.loud <==> k in s.loud)) && QuietOk(s, t, o)
    requires PcOf(s, t).Unmounting() ==> PcOf(s, t).w.sb != sb
    ensures QuietOk(s', t, o)
  {
  }

  lemma StartUnmountKeeps(s: State, t: Thread, sb: Sb, s': State)
    requires Inv(s) && StartUnmount(s, t, sb, s')
    ensures Inv(s')
  {
    var m := s.(loud := s'.loud);
    LoudKeeps(s, m, sb);
    hide Inv, Exact, Own, Calm, Guar, Pre;
    InvPre(m, t, None, None);
    InvExact(m);
    PcOnly(m, s', t, PcOf(s', t));
    StartUnmountOwn(m, t, sb, s');
    StartUnmountCalm(s, m, t, sb, s');
    Keeps(m, s', t, None, None);
  }

  lemma StartUnmountOwn(m: State, t: Thread, sb: Sb, s': State)
    requires Pre(m, t, None, None) && PcOf(m, t) == Idle
    requires s' == SetPc(m, t, Walk(Unmount(sb, (set i | i in m.inos && m.inos[i].alive && m.inos[i].sb == sb), None)))
    ensures Own(m, s', t, None, None)
  {
    hide RefsExact, UsesExact, PendingExact, GetOk, PutOk;
  }

  lemma StartUnmountCalm(s: State, m: State, t: Thread, sb: Sb, s': State)
    requires Inv(m) && StartUnmount(s, t, sb, s') && m == s.(loud := s'.loud)
    ensures Calm(m, s', t, None)
  {
    hide Settled, ThreadOk, ObjOk, InoOk, RefOk, UseOk, RefsExact, UsesExact, PendingExact;
    forall k: Thread ensures PairOk(s', t, k) && PairOk(s', k, t) {
      assert PairOk(m, k, t);
    }
    forall k: Object ensures QuietOk(s', t, k) {
      if k in s.objs && s.objs[k].home in s.inos && s.inos[s.objs[k].home].sb == sb && sb !in s'.loud && !s.inos[s.objs[k].home].alive {
        DeadSettled(m, s', t, k);
      }
    }
  }

  lemma DeadSettled(m: State, s': State, t: Thread, k: Object)
    requires Inv(m) && k in m.objs && m.objs[k].home in m.inos && !m.inos[m.objs[k].home].alive
    requires s' == SetPc(m, t, PcOf(s', t))
    ensures Settled(s', k)
  {
    hide Inv, RefOk;
    ObjAt(m, k);
    TieThere(m, k);
    var p := m.objs[k].phase;
    if p.Fresh? {
      At(m, p.thread);
      RefAt(m, Path(m.objs[k].home, p.thread));
      RefThere(m, Path(m.objs[k].home, p.thread));
    }
  }

  lemma RefThere(s: State, r: Ref)
    requires Inv(s) && r in s.refs
    ensures r.inode in s.inos && s.inos[r.inode].alive
  {
    assert RefOk(s, r);
  }

  lemma WalkKeeps(s: State, t: Thread, w: Unmount, i: Inode, s': State)
    requires Inv(s) && WalkStep(s, t, w, i, s')
    ensures Inv(s')
  {
    hide Inv, Exact, Own, Calm, Guar, Pre;
    InvPre(s, t, None, None);
    InvExact(s);
    WalkOwn(s, t, w, i, s');
    if w.todo == {} && w.prev.Some? {
      RefGone(s, s', t, Visit(w.prev.value, t), PcOf(s', t));
    } else {
      PcOnly(s, s', t, PcOf(s', t));
    }
    CalmPairs(s, s', t, None, None);
    PassCalm(s, s', t);
    Keeps(s, s', t, None, None);
  }

  lemma WalkOwn(s: State, t: Thread, w: Unmount, i: Inode, s': State)
    requires Pre(s, t, None, None) && WalkStep(s, t, w, i, s')
    ensures Own(s, s', t, None, None) && (w.todo == {} && w.prev.Some? ==> Visit(w.prev.value, t) in s.refs)
  {
    hide RefsExact, UsesExact, PendingExact, GetOk, PutOk;
  }

  /** A step that touches no object and gives up nothing that is to do. */
  lemma PassCalm(s: State, s': State, t: Thread)
    requires Inv(s) && Guar(s, s', t, None, None) && PcOf(s, t).Unmounting() && PcOf(s', t).Unmounting()
    requires PcOf(s', t).w.sb == PcOf(s, t).w.sb
    requires forall k: Thread :: PairOk(s', t, k) && PairOk(s', k, t)
    requires forall k, i :: ToDo(PcOf(s, t), k, i) ==> ToDo(PcOf(s', t), k, i) || (Mine(s, t, k) && s.objs[k].home == i ==> Settled(s, k))
    ensures Calm(s, s', t, None)
  {
    hide ThreadOk, InoOk, RefOk, UseOk, RefsExact, UsesExact, PendingExact, PairOk, Settled;
    forall k: Object ensures QuietOk(s', t, k) {
      if k in s.objs {
        assert QuietOk(s, t, k) && ObjOk(s, k);
        if Settled(s, k) {
          StaysSettled(s, s', t, None, None, k);
        }
      }
    }
  }

  lemma PeekKeeps(s: State, t: Thread, w: Unmount, i: Inode, s': State)
    requires Inv(s) && PeekStep(s, t, w, i, s')
    ensures Inv(s')
  {
    hide Inv, Exact, Own, Calm, Guar, Pre, Settled;
    InvPre(s, t, None, None);
    InvExact(s);
    PeekOwn(s, t, w, i, s');
    PcOnly(s, s', t, PcOf(s', t));
    CalmPairs(s, s', t, None, None);
    forall k | Mine(s, t, k) && s.objs[k].home == i && s.inos[i].count == 0 ensures Settled(s, k) {
      UnusedSettled(s, t, k);
    }
    PassCalm(s, s', t);
    Keeps(s, s', t, None, None);
  }

  lemma PeekOwn(s: State, t: Thread, w: Unmount, i: Inode, s': State)
    requires Pre(s, t, None, None) && PeekStep(s, t, w, i, s')
    ensures Own(s, s', t, None, None)
  {
    hide RefsExact, UsesExact, PendingExact, GetOk, PutOk;
  }

  lemma EnterKeeps(s: State, t: Thread, w: Unmount, i: Inode, s': State)
    requires Inv(s) && EnterStep(s, t, w, i, s')
    ensures Inv(s')
  {
    hide Inv, Exact, Own, Calm, Guar, Pre, Settled;
    InvPre(s, t, s.inos[i].weak, Some(i));
    InvExact(s);
    EnterOwn(s, t, w, i, s');
    if PcOf(s', t).Test? {
      RefNew(s, s', t, Visit(i, t), PcOf(s', t));
    } else {
      PcOnly(s, s', t, PcOf(s', t));
    }
    CalmPairs(s, s', t, None, None);
    forall k | Mine(s, t, k) && s.objs[k].home == i && !(s.inos[i].alive && s.inos[i].weak == Some(k)) ensures Settled(s, k) {
      EnterSettled(s, t, k);
    }
    PassCalm(s, s', t);
    Keeps(s, s', t, None, None);
  }

  lemma EnterSettled(s: State, t: Thread, k: Object)
    requires Inv(s) && Mine(s, t, k) && PcOf(s, t).Enter?
    requires !s.inos[s.objs[k].home].alive || s.inos[s.objs[k].home].weak != Some(k)
    ensures Settled(s, k)
  {
    hide Inv, Settled;
    ObjAt(s, k);
    if !s.inos[s.objs[k].home].alive {
      UnusedSettled(s, t, k);
    } else {
      UntiedSettled(s, t, k);
    }
  }

  lemma EnterOwn(s: State, t: Thread, w: Unmount, i: Inode, s': State)
    requires i in s.inos && Pre(s, t, s.inos[i].weak, Some(i)) && EnterStep(s, t, w, i, s')
    ensures Own(s, s', t, None, None) && Visit(i, t) !in s.refs
  {
    hide RefsExact, UsesExact, PendingExact, GetOk, PutOk;
    assert Visit(i, t) in s.refs ==> RefOk(s, Visit(i, t));
  }

  lemma TestKeeps(s: State, t: Thread, w: Unmount, i: Inode, o: Object, s': State)
    requires Inv(s) && TestStep(s, t, w, i, o, s')
    ensures Inv(s')
  {
    hide Inv, RefsExact, UsesExact, PendingExact, Own, Calm, Guar, Pre, Settled;
    InvPre(s, t, Some(o), None);
    InvExact(s);
    TestOwn(s, t, w, i, o, s');
    if PcOf(s', t).ResetU? {
      ObjPc(s, s', t, o, s'.objs[o], PcOf(s', t));
      PendingKept(s, s', t);
      CalmPairs(s, s', t, Some(o), None);
      TakeCalm(s, s', t, o, None);
      Keeps(s, s', t, Some(o), None);
    } else {
      PcOnly(s, s', t, PcOf(s', t));
      CalmPairs(s, s', t, None, None);
      if Mine(s, t, o) {
        UntiedSettled(s, t, o);
      }
      PassCalm(s, s', t);
      Keeps(s, s', t, None, None);
    }
  }

  lemma TestOwn(s: State, t: Thread, w: Unmount, i: Inode, o: Object, s': State)
    requires Pre(s, t, Some(o), None) && TestStep(s, t, w, i, o, s')
    ensures Own(s, s', t, if PcOf(s', t).ResetU? then Some(o) else None, None)
    ensures PcOf(s', t).ResetU? ==> s.objs[o].phase.Tied? && !Settled(s, o) && ObjGuar(s.objs[o], s'.objs[o], t, true)
    ensures !PcOf(s', t).ResetU? ==> !s.objs[o].phase.Tied?
  {
    hide RefsExact, UsesExact, PendingExact, GetOk, PutOk;
  }

  lemma GuarMine(s: State, s': State, t: Thread, o: Option<Object>, i: Option<Inode>, k: Object)
    requires Guar(s, s', t, o, i) && k in s.objs && ObjOk(s, k) && PcOf(s, t).Unmounting() && PcOf(s', t).Unmounting()
    requires PcOf(s', t).w == PcOf(s, t).w && k in s'.objs
    ensures s'.objs[k].home == s.objs[k].home && (Mine(s', t, k) ==> Mine(s, t, k))
  {
  }

  lemma QuietMine(s: State, t: Thread, k: Object)
    ensures QuietOk(s, t, k) <==> (Mine(s, t, k) ==> Settled(s, k) || ToDo(PcOf(s, t), k, s.objs[k].home))
  {
  }

  /** A step on the tie that the thread has taken over, or takes over now. */
  lemma TakeCalm(s: State, s': State, t: Thread, o: Object, i: Option<Inode>)
    requires Inv(s) && Guar(s, s', t, Some(o), i) && o in s.objs && PcOf(s, t).Unmounting() && PcOf(s', t).Unmounting()
    requires PcOf(s', t).w == PcOf(s, t).w
    requires (PcOf(s, t).Test? || PcOf(s, t).ResetU? || PcOf(s, t).IputU?) && PcOf(s, t).obj == o
    requires o in s'.objs && (((PcOf(s', t).ResetU? || PcOf(s', t).IputU?) && PcOf(s', t).obj == o) || Settled(s', o))
    requires !Settled(s, o)
    requires forall k: Thread :: PairOk(s', t, k) && PairOk(s', k, t)
    ensures Calm(s, s', t, Some(o))
  {
    hide Guar, ThreadOk, InoOk, ObjOk, RefOk, UseOk, RefsExact, UsesExact, PendingExact, PairOk, QuietOk, Settled, Mine;
    forall k: Object ensures QuietOk(s', t, k) {
      GuarKeys(s, s', t, Some(o), i);
      if k !in s'.objs {
        NoObject(s', t, k);
      } else {
        QuietMine(s', t, k);
        if k != o {
          QuietMine(s, t, k);
          GuarMine(s, s', t, Some(o), i, k);
          if Settled(s, k) {
            StaysSettled(s, s', t, Some(o), i, k);
          }
        }
      }
    }
  }

  lemma ResetUKeeps(s: State, t: Thread, w: Unmount, i: Inode, o: Object, s': State)
    requires Inv(s) && ResetUStep(s, t, w, i, o, s')
    ensures Inv(s')
  {
    hide Inv, RefsExact, UsesExact, PendingExact, Own, Calm, Guar, Pre, Settled;
    InvPre(s, t, Some(o), Some(i));
    InvExact(s);
    ResetUOwn(s, t, w, i, o, s');
    TieReset(s, s', t, o, i, PcOf(s', t));
    PendingKept(s, s', t);
    CalmPairs(s, s', t, Some(o), Some(i));
    TakeCalm(s, s', t, o, Some(i));
    Keeps(s, s', t, Some(o), Some(i));
  }

  lemma ResetUOwn(s: State, t: Thread, w: Unmount, i: Inode, o: Object, s': State)
    requires Pre(s, t, Some(o), Some(i)) && ResetUStep(s, t, w, i, o, s')
    ensures Own(s, s', t, Some(o), Some(i)) && s.objs[o].home == i && s.objs[o].phase == Taken(t) && s.inos[i].weak == Some(o)
    ensures !Settled(s, o)
  {
    hide RefsExact, UsesExact, PendingExact, GetOk, PutOk;
  }

  lemma IputUKeeps(s: State, t: Thread, w: Unmount, i: Inode, o: Object, s': State)
    requires Inv(s) && IputUStep(s, t, w, i, o, s')
    ensures Inv(s')
  {
    hide Inv, RefsExact, UsesExact, PendingExact, Own, Calm, Guar, Pre, Settled;
    InvPre(s, t, Some(o), None);
    InvExact(s);
    IputUOwn(s, t, w, i, o, s');
    TieDropped(s, s', t, o, i, PcOf(s', t));
    PendingKept(s, s', t);
    CalmPairs(s, s', t, Some(o), None);
    TakeCalm(s, s', t, o, None);
    Keeps(s, s', t, Some(o), None);
  }

  lemma IputUOwn(s: State, t: Thread, w: Unmount, i: Inode, o: Object, s': State)
    requires Pre(s, t, Some(o), None) && IputUStep(s, t, w, i, o, s')
    ensures Own(s, s', t, Some(o), None) && s.objs[o].home == i && s.objs[o].phase == Cleared(t) && Tie(i, o) in s.refs
    ensures !Settled(s, o) && o in s'.objs && Settled(s', o)
  {
    hide RefsExact, UsesExact, PendingExact, GetOk, PutOk;
  }

  lemma NextKeeps(s: State, t: Thread, w: Unmount, i: Inode, s': State)
    requires Inv(s) && NextStep(s, t, w, i, s')
    ensures Inv(s')
  {
    hide Inv, Exact, Own, Calm, Guar, Pre;
    InvPre(s, t, None, None);
    InvExact(s);
    NextOwn(s, t, w, i, s');
    if w.prev.Some? {
      RefGone(s, s', t, Visit(w.prev.value, t), PcOf(s', t));
    } else {
      PcOnly(s, s', t, PcOf(s', t));
    }
    CalmPairs(s, s', t, None, None);
    PassCalm(s, s', t);
    Keeps(s, s', t, None, None);
  }

  lemma NextOwn(s: State, t: Thread, w: Unmount, i: Inode, s': State)
    requires Pre(s, t, None, None) && NextStep(s, t, w, i, s')
    ensures Own(s, s', t, None, None) && (w.prev.Some? ==> Visit(w.prev.value, t) in s.refs)
  {
    hide RefsExact, UsesExact, PendingExact, GetOk, PutOk;
  }

  lemma WaitKeeps(s: State, t: Thread, w: Unmount, s': State)
    requires Inv(s) && WaitStep(s, t, w, s')
    ensures Inv(s')
  {
    hide Inv, Exact, Own, Calm, Guar, Pre;
    InvPre(s, t, None, None);
    InvExact(s);
    PcOnly(s, s', t, Idle);
    WaitOwn(s, t, w, s');
    CalmElsewhere(s, s', t, None, None);
    Keeps(s, s', t, None, None);
  }

  lemma WaitOwn(s: State, t: Thread, w: Unmount, s': State)
    requires Pre(s, t, None, None) && WaitStep(s, t, w, s')
    ensures Own(s, s', t, None, None)
  {
    hide RefsExact, UsesExact, PendingExact, GetOk, PutOk;
  }
}
