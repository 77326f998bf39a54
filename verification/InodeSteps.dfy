/**
 The shapes of the steps, and what each of them leaves alone.
 */
module InodeSteps {
  import opened Basics
  import opened InodeModel
  import opened InodeInv

  /** Nothing but the program counter of `t`. */
  lemma PcOnly(s: State, s': State, t: Thread, pc: Pc)
    requires Exact(s) && s' == SetPc(s, t, pc).(loud := s'.loud) && s.loud <= s'.loud
    requires Busy(PcOf(s, t), None, None) && forall sb :: pc.Counts(sb) == PcOf(s, t).Counts(sb)
    ensures Guar(s, s', t, None, None) && Exact(s')
  {
    hide PendingExact;
    PendingKept(s, s', t);
  }

  /** And one object. */
  lemma ObjPc(s: State, s': State, t: Thread, o: Object, b: Obj, pc: Pc)
    requires RefsExact(s) && UsesExact(s) && o in s.objs && s' == SetPc(SetObj(s, o, b), t, pc).(inodeRefs := s'.inodeRefs)
    requires b.usage == s.objs[o].usage && ObjGuar(s.objs[o], b, t, true) && Busy(PcOf(s, t), Some(o), None)
    ensures Guar(s, s', t, Some(o), None) && RefsExact(s') && UsesExact(s')
  {
    hide RefsExact, UsesExact;
    RefKept(s, s');
    UseKept(s, s');
  }

  lemma TieReset(s: State, s': State, t: Thread, o: Object, i: Inode, pc: Pc)
    requires RefsExact(s) && UsesExact(s) && ObjectAt(s, o, i) && s.objs[o].phase == Taken(t) && s.inos[i].weak == Some(o)
    requires s' == SetPc(SetIno(SetObj(s, o, s.objs[o].(phase := Cleared(t))), i, s.inos[i].(weak := None)), t, pc)
    requires Busy(PcOf(s, t), Some(o), Some(i))
    ensures Guar(s, s', t, Some(o), Some(i)) && RefsExact(s') && UsesExact(s')
  {
    hide RefsExact, UsesExact;
    RefKept(s, s');
    UseKept(s, s');
  }

  lemma TieDropped(s: State, s': State, t: Thread, o: Object, i: Inode, pc: Pc)
    requires RefsExact(s) && UsesExact(s) && ObjectAt(s, o, i) && s.objs[o].phase == Cleared(t) && s.inos[i].count > 0
    requires Tie(i, o) in s.refs
    requires s' == SetPc(SetObj(DropRef(s, Tie(i, o)), o, s.objs[o].(phase := Done, iputs := s.objs[o].iputs + 1)), t, pc)
    requires Busy(PcOf(s, t), Some(o), None)
    ensures Guar(s, s', t, Some(o), None) && RefsExact(s') && UsesExact(s')
  {
    hide RefsExact, UsesExact;
    RefDropped(s, s', Tie(i, o));
    UseKept(s, s');
  }

  lemma RefGone(s: State, s': State, t: Thread, r: Ref, pc: Pc)
    requires Exact(s) && r in s.refs && Owns(t, r) && r.inode in s.inos && s.inos[r.inode].count > 0
    requires s' == SetPc(DropRef(s, r), t, pc)
    requires Busy(PcOf(s, t), None, None) && forall sb :: pc.Counts(sb) == PcOf(s, t).Counts(sb)
    ensures Guar(s, s', t, None, None) && Exact(s')
  {
    hide RefsExact, UsesExact, PendingExact;
    RefDropped(s, s', r);
    UseKept(s, s');
    PendingKept(s, s', t);
  }

  lemma RefNew(s: State, s': State, t: Thread, r: Ref, pc: Pc)
    requires Exact(s) && r !in s.refs && Owns(t, r) && r.inode in s.inos
    requires s' == SetPc(AddRef(s, r), t, pc).(loud := s'.loud) && s.loud <= s'.loud
    requires Busy(PcOf(s, t), None, None) && forall sb :: pc.Counts(sb) == PcOf(s, t).Counts(sb)
    ensures Guar(s, s', t, None, None) && Exact(s')
  {
    hide RefsExact, UsesExact, PendingExact;
    RefAdded(s, s', r);
    UseKept(s, s');
    PendingKept(s, s', t);
  }

  lemma UseGone(s: State, s': State, t: Thread, o: Object, b: Obj, pc: Pc)
    requires Exact(s) && InHand(o, t) in s.uses && o in s.objs && s.objs[o].usage > 0
    requires s' == SetPc(SetObj(DropUse(s, InHand(o, t)), o, b), t, pc)
    requires b.usage == s.objs[o].usage - 1 && ObjGuar(s.objs[o], b, t, true)
    requires Busy(PcOf(s, t), Some(o), None) && forall sb :: pc.Counts(sb) == PcOf(s, t).Counts(sb)
    ensures Guar(s, s', t, Some(o), None) && Exact(s')
  {
    hide RefsExact, UsesExact, PendingExact;
    RefKept(s, s');
    UseDropped(s, s', InHand(o, t));
    PendingKept(s, s', t);
  }
}
