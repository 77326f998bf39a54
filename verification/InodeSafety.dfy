/**
 What holds in every interleaving of get_inode_object, landlock_put_object and hook_sb_delete.
 */
module InodeSafety {
  import opened Basics
  import opened InodeModel
  import opened InodeInv
  import opened InodeSteps
  import opened InodeGet
  import opened InodePut
  import opened InodeUnmount

  /** What happens next: which function, which thread, and what is left to chance. */
  datatype Action =
    | ANewInode(i: Inode, sb: Sb) | AOpen(i: Inode, key: nat) | AClose(i: Inode, key: nat) | AEvict(i: Inode)
    | AGetObject(o: Object, key: nat, copy: nat)
    | AStartGet(t: Thread, i: Inode) | AStartPut(t: Thread, o: Object, key: nat) | AStartUnmount(t: Thread, sb: Sb)
    | AGo(t: Thread, choice: nat)

  /** The next step of a thread that is inside one of the functions. */
  predicate Go(s: State, t: Thread, choice: nat, s': State)
  {
    match PcOf(s, t)
    case Idle => false
    case Load(i) => LoadStep(s, t, i, s')
    case TryGet(i, o) => TryGetStep(s, t, i, o, choice, s')
    case Spin(i, o) => SpinStep(s, t, i, o, s')
    case Create(i) => CreateStep(s, t, i, choice, s')
    case WantInode(i, n) => WantInodeStep(s, t, i, n, s')
    case Assign(i, n) => AssignStep(s, t, i, n, choice, s')
    case Put(o) => PutStep(s, t, o, s')
    case WantObject(o) => WantObjectStep(s, t, o, s')
    case Release(o) => ReleaseStep(s, t, o, s')
    case Count(o, i) => CountStep(s, t, o, i, s')
    case Reset(o, i, sb) => ResetStep(s, t, o, i, sb, s')
    case Iput(o, i, sb) => IputStep(s, t, o, i, sb, s')
    case Return(o, sb) => ReturnStep(s, t, o, sb, s')
    case Walk(w) => WalkStep(s, t, w, choice, s')
    case Peek(w, i) => PeekStep(s, t, w, i, s')
    case Enter(w, i) => EnterStep(s, t, w, i, s')
    case Test(w, i, o) => TestStep(s, t, w, i, o, s')
    case ResetU(w, i, o) => ResetUStep(s, t, w, i, o, s')
    case IputU(w, i, o) => IputUStep(s, t, w, i, o, s')
    case Next(w, i) => NextStep(s, t, w, i, s')
    case Wait(w) => WaitStep(s, t, w, s')
  }

  predicate Step(s: State, a: Action, s': State)
  {
    match a
    case ANewInode(i, sb) => NewInode(s, i, sb, s')
    case AOpen(i, key) => Open(s, i, key, s')
    case AClose(i, key) => Close(s, i, key, s')
    case AEvict(i) => Evict(s, i, s')
    case AGetObject(o, key, copy) => GetObject(s, o, key, copy, s')
    case AStartGet(t, i) => StartGet(s, t, i, s')
    case AStartPut(t, o, key) => StartPut(s, t, o, key, s')
    case AStartUnmount(t, sb) => StartUnmount(s, t, sb, s')
    case AGo(t, choice) => Go(s, t, choice, s')
  }

  // ---------------------------------------------------------------- the rest of the kernel

  /** A thread that is in none of the functions; what the rest of the kernel does is a step of such a thread. */
  lemma SomeIdle(s: State) returns (t: Thread)
    ensures t !in s.pcs
  {
    t := Above(s.pcs.Keys);
  }

  lemma {:induction false} Above(ts: set<Thread>) returns (t: Thread)
    ensures forall k <- ts :: k < t
    decreases ts
  {
    t := 0;
    if ts != {} {
      var k :| k in ts;
      var m := Above(ts - {k});
      t := if m > k then m else k + 1;
      assert forall x <- ts :: x == k || x in ts - {k};
    }
  }

  lemma EnvOwn(s: State, s': State, t: Thread)
    requires Pre(s, t, None, None) && t !in s.pcs && s'.pcs == s.pcs
    requires forall r <- s'.refs :: r in s.refs || (r.Ext? && r.inode in s'.inos && s'.inos[r.inode].alive)
    requires forall u <- s'.uses :: u in s.uses || (u.User? && u.obj in s'.objs && s'.objs[u.obj].Published())
    ensures Own(s, s', t, None, None)
  {
    hide RefsExact, UsesExact, PendingExact, GetOk, PutOk, UnmountOk;
  }

  lemma EnvKeeps(s: State, s': State, t: Thread)
    requires Inv(s) && Guar(s, s', t, None, None) && t !in s.pcs && s'.pcs == s.pcs && s'.inodeRefs == s.inodeRefs
    requires RefsExact(s') && UsesExact(s')
    requires forall r <- s'.refs :: r in s.refs || (r.Ext? && r.inode in s'.inos && s'.inos[r.inode].alive)
    requires forall u <- s'.uses :: u in s.uses || (u.User? && u.obj in s'.objs && s'.objs[u.obj].Published())
    ensures Inv(s')
  {
    InvExact(s);
    assert PendingExact(s');
    hide Inv, RefsExact, UsesExact, PendingExact, Own, Calm, Guar, Pre;
    InvPre(s, t, None, None);
    EnvOwn(s, s', t);
    CalmElsewhere(s, s', t, None, None);
    Keeps(s, s', t, None, None);
  }

  lemma NewInodeKeeps(s: State, i: Inode, sb: Sb, s': State)
    requires Inv(s) && NewInode(s, i, sb, s')
    ensures Inv(s')
  {
    var t := SomeIdle(s);
    InvExact(s);
    hide Inv, RefsExact, UsesExact;
    RefKept(s, s');
    UseKept(s, s');
    NewInodeRefs(s, i);
    EnvKeeps(s, s', t);
  }

  lemma NewInodeRefs(s: State, i: Inode)
    requires RefsExact(s) && i !in s.inos
    ensures forall r <- s.refs :: r.inode != i
  {
  }

  lemma OpenGuar(s: State, i: Inode, key: nat, s': State, t: Thread)
    requires Open(s, i, key, s') && t !in s.pcs
    ensures Guar(s, s', t, None, None)
  {
  }

  lemma CloseGuar(s: State, i: Inode, key: nat, s': State, t: Thread)
    requires Close(s, i, key, s') && t !in s.pcs
    ensures Guar(s, s', t, None, None)
  {
  }

  lemma EvictGuar(s: State, i: Inode, s': State, t: Thread)
    requires Evict(s, i, s') && t !in s.pcs && forall r <- s.refs :: r.inode != i
    ensures Guar(s, s', t, None, None)
  {
  }

  lemma GetObjectGuar(s: State, o: Object, key: nat, copy: nat, s': State, t: Thread)
    requires GetObject(s, o, key, copy, s') && t !in s.pcs
    ensures Guar(s, s', t, None, None)
  {
  }

  lemma OpenKeeps(s: State, i: Inode, key: nat, s': State)
    requires Inv(s) && Open(s, i, key, s')
    ensures Inv(s')
  {
    var t := SomeIdle(s);
    InvExact(s);
    hide Inv, RefsExact, UsesExact;
    RefAdded(s, s', Ext(i, key));
    UseKept(s, s');
    OpenGuar(s, i, key, s', t);
    hide Guar;
    EnvKeeps(s, s', t);
  }

  lemma CloseKeeps(s: State, i: Inode, key: nat, s': State)
    requires Inv(s) && Close(s, i, key, s')
    ensures Inv(s')
  {
    var t := SomeIdle(s);
    InvExact(s);
    hide Inv, RefsExact, UsesExact;
    RefDropped(s, s', Ext(i, key));
    UseKept(s, s');
    CloseGuar(s, i, key, s', t);
    hide Guar;
    EnvKeeps(s, s', t);
  }

  lemma EvictKeeps(s: State, i: Inode, s': State)
    requires Inv(s) && Evict(s, i, s')
    ensures Inv(s')
  {
    var t := SomeIdle(s);
    InvExact(s);
    hide Inv, RefsExact, UsesExact;
    forall r <- s.refs ensures r.inode != i {
      Owned(s, r);
    }
    RefKept(s, s');
    UseKept(s, s');
    EvictGuar(s, i, s', t);
    hide Guar;
    EnvKeeps(s, s', t);
  }

  lemma GetObjectKeeps(s: State, o: Object, key: nat, copy: nat, s': State)
    requires Inv(s) && GetObject(s, o, key, copy, s')
    ensures Inv(s')
  {
    var t := SomeIdle(s);
    InvExact(s);
    hide Inv, RefsExact, UsesExact;
    UseAt(s, User(o, key));
    RefKept(s, s');
    UseAdded(s, s', User(o, copy));
    GetObjectGuar(s, o, key, copy, s', t);
    hide Guar;
    EnvKeeps(s, s', t);
  }

  // ---------------------------------------------------------------- every run

  lemma InitInv(s: State)
    requires Init(s)
    ensures Inv(s)
  {
    forall i <- s.inos ensures RefsOf(s.refs, i) == {} {
    }
    forall sb: Sb ensures Pending(s.pcs, sb) == {} {
    }
    assert RefsExact(s) && UsesExact(s) && PendingExact(s);
  }

  lemma GoKeeps(s: State, t: Thread, choice: nat, s': State)
    requires Inv(s) && Go(s, t, choice, s')
    ensures Inv(s')
  {
    hide Inv, LoadStep, TryGetStep, SpinStep, CreateStep, WantInodeStep, AssignStep, PutStep, WantObjectStep, ReleaseStep, CountStep,
      ResetStep, IputStep, ReturnStep, WalkStep, PeekStep, EnterStep, TestStep, ResetUStep, IputUStep, NextStep, WaitStep;
    match PcOf(s, t)
    case Load(i) => LoadKeeps(s, t, i, s');
    case TryGet(i, o) => TryGetKeeps(s, t, i, o, choice, s');
    case Spin(i, o) => SpinKeeps(s, t, i, o, s');
    case Create(i) => CreateKeeps(s, t, i, choice, s');
    case WantInode(i, n) => WantInodeKeeps(s, t, i, n, s');
    case Assign(i, n) => AssignKeeps(s, t, i, n, choice, s');
    case Put(o) => PutKeeps(s, t, o, s');
    case WantObject(o) => WantObjectKeeps(s, t, o, s');
    case Release(o) => ReleaseKeeps(s, t, o, s');
    case Count(o, i) => CountKeeps(s, t, o, i, s');
    case Reset(o, i, sb) => ResetKeeps(s, t, o, i, sb, s');
    case Iput(o, i, sb) => IputKeeps(s, t, o, i, sb, s');
    case Return(o, sb) => ReturnKeeps(s, t, o, sb, s');
    case Walk(w) => WalkKeeps(s, t, w, choice, s');
    case Peek(w, i) => PeekKeeps(s, t, w, i, s');
    case Enter(w, i) => EnterKeeps(s, t, w, i, s');
    case Test(w, i, o) => TestKeeps(s, t, w, i, o, s');
    case ResetU(w, i, o) => ResetUKeeps(s, t, w, i, o, s');
    case IputU(w, i, o) => IputUKeeps(s, t, w, i, o, s');
    case Next(w, i) => NextKeeps(s, t, w, i, s');
    case Wait(w) => WaitKeeps(s, t, w, s');
    case Idle =>
  }

  lemma StepKeeps(s: State, a: Action, s': State)
    requires Inv(s) && Step(s, a, s')
    ensures Inv(s')
  {
    hide Inv, Go, NewInode, Open, Close, Evict, GetObject, StartGet, StartPut, StartUnmount;
    match a
    case ANewInode(i, sb) => NewInodeKeeps(s, i, sb, s');
    case AOpen(i, key) => OpenKeeps(s, i, key, s');
    case AClose(i, key) => CloseKeeps(s, i, key, s');
    case AEvict(i) => EvictKeeps(s, i, s');
    case AGetObject(o, key, copy) => GetObjectKeeps(s, o, key, copy, s');
    case AStartGet(t, i) => StartGetKeeps(s, t, i, s');
    case AStartPut(t, o, key) => StartPutKeeps(s, t, o, key, s');
    case AStartUnmount(t, sb) => StartUnmountKeeps(s, t, sb, s');
    case AGo(t, choice) => GoKeeps(s, t, choice, s');
  }

  /** A run: its states, and what happens between them. */
  ghost predicate Run(states: seq<State>, actions: seq<Action>)
  {
    && |states| == |actions| + 1 && Init(states[0])
    && forall n :: 0 <= n < |actions| ==> Step(states[n], actions[n], states[n + 1])
  }

  lemma {:induction false} Always(states: seq<State>, actions: seq<Action>, n: nat)
    requires Run(states, actions) && n < |states|
    ensures Inv(states[n])
  {
    if n == 0 {
      InitInv(states[0]);
    } else {
      Always(states, actions, n - 1);
      StepKeeps(states[n - 1], actions[n - 1], states[n]);
    }
  }

  // ---------------------------------------------------------------- what it means

  /**
   The ihold() of a tie is returned by at most one iput(), and there is no iput() without it. As long as it
   has not been returned, the tie owns a reference, so that the inode stays; and it is either in place,
   or one thread is on its way to return it.
   */
  lemma OneIput(s: State, o: Object)
    requires Inv(s) && o in s.objs
    ensures s.objs[o].iputs <= s.objs[o].iholds <= 1
    ensures s.objs[o].iputs < s.objs[o].iholds <==> Tie(s.objs[o].home, o) in s.refs
    ensures s.objs[o].iputs < s.objs[o].iholds ==>
      s.objs[o].home in s.inos && s.inos[s.objs[o].home].count > 0 && s.inos[s.objs[o].home].alive
    ensures s.objs[o].iputs < s.objs[o].iholds ==>
      s.objs[o].phase.Tied? || (!s.objs[o].phase.Done? && !s.objs[o].phase.Gone? && AtWork(PcOf(s, s.objs[o].phase.thread), o, s.objs[o]))
  {
    hide Inv;
    ObjAt(s, o);
    TieThere(s, o);
    if Tie(s.objs[o].home, o) in s.refs {
      RefAt(s, Tie(s.objs[o].home, o));
    }
  }

  /** Somewhere between the last reference to `o` being given up, or an unmount taking over, and the iput(). */
  predicate AtRelease(pc: Pc, o: Object)
  {
    (pc.Release? || pc.Count? || pc.Reset? || pc.Iput? || pc.ResetU? || pc.IputU?) && pc.obj == o
  }

  /**
   No ihold() is ever lost: once an object is not used any more and nobody is at work on it, its ihold() has been
   returned, by exactly one iput(), and its tie owns no reference.
   */
  lemma ExactlyOneIput(s: State, o: Object)
    requires Inv(s) && o in s.objs && s.objs[o].usage == 0 && s.objs[o].iholds > 0
    requires forall t: Thread :: !AtRelease(PcOf(s, t), o) && PcOf(s, t) != Assign(s.objs[o].home, o)
    ensures s.objs[o].iholds == 1 && s.objs[o].iputs == 1
    ensures Tie(s.objs[o].home, o) !in s.refs && s.objs[o].underobj == None && s.inos[s.objs[o].home].weak != Some(o)
  {
    OneIput(s, o);
    hide Inv;
    ObjAt(s, o);
  }

  /** How many steps a thread at work on the tie of an object is from its iput(). */
  function StepsToIput(pc: Pc): nat
  {
    match pc
    case Release(_) => 4
    case Count(_, _) => 3
    case Reset(_, _, _) => 2
    case ResetU(_, _, _) => 2
    case Iput(_, _, _) => 1
    case IputU(_, _, _) => 1
    case _ => 0
  }

  /**
   Nothing can hold up a thread at work on a tie: it can take its next step at once, and that is one step closer to the
   iput(), or ends a release that has found no tie.
   */
  lemma ReleaseGoesOn(s: State, t: Thread) returns (s': State)
    requires Inv(s) && StepsToIput(PcOf(s, t)) > 0
    ensures Go(s, t, 0, s') && StepsToIput(PcOf(s', t)) < StepsToIput(PcOf(s, t))
    ensures !PcOf(s, t).Release? ==> StepsToIput(PcOf(s', t)) == StepsToIput(PcOf(s, t)) - 1
  {
    ReleaseReady(s, t);
    hide Inv;
    if PcOf(s, t).Release? {
      s' := ReleaseTakes(s, t);
    } else if PcOf(s, t).Count? {
      s' := CountTakes(s, t);
    } else if StepsToIput(PcOf(s, t)) == 2 {
      s' := ResetTakes(s, t);
    } else {
      s' := IputTakes(s, t);
    }
  }

  lemma ReleaseTakes(s: State, t: Thread) returns (s': State)
    requires PcOf(s, t).Release? && PcOf(s, t).obj in s.objs
    ensures Go(s, t, 0, s') && StepsToIput(PcOf(s', t)) < 4
  {
    var o := PcOf(s, t).obj;
    var b := s.objs[o];
    s' := match b.underobj
      case None => SetPc(SetObj(s, o, b.(locker := None)), t, Idle)
      case Some(i) => SetPc(SetObj(s, o, b.(underobj := None, phase := Taken(t))), t, Count(o, i));
  }

  lemma CountTakes(s: State, t: Thread) returns (s': State)
    requires PcOf(s, t).Count? && PcOf(s, t).obj in s.objs && PcOf(s, t).inode in s.inos
    ensures Go(s, t, 0, s') && StepsToIput(PcOf(s', t)) == 2
  {
    var o, i := PcOf(s, t).obj, PcOf(s, t).inode;
    var sb := s.inos[i].sb;
    s' := SetPc(SetObj(s, o, s.objs[o].(locker := None)), t, Reset(o, i, sb)).(inodeRefs := s.inodeRefs[sb := InodeRefs(s, sb) + 1]);
  }

  lemma ResetTakes(s: State, t: Thread) returns (s': State)
    requires (PcOf(s, t).Reset? || PcOf(s, t).ResetU?) && PcOf(s, t).obj in s.objs && PcOf(s, t).inode in s.inos
    ensures Go(s, t, 0, s') && StepsToIput(PcOf(s', t)) == 1
  {
    var pc := PcOf(s, t);
    var o, i := pc.obj, pc.inode;
    s' := SetPc(SetIno(SetObj(s, o, s.objs[o].(phase := Cleared(t))), i, s.inos[i].(weak := None)), t,
                if pc.Reset? then Iput(o, i, pc.sb) else IputU(pc.w, i, o));
  }

  lemma IputTakes(s: State, t: Thread) returns (s': State)
    requires (PcOf(s, t).Iput? || PcOf(s, t).IputU?) && PcOf(s, t).obj in s.objs
    requires PcOf(s, t).inode in s.inos && s.inos[PcOf(s, t).inode].count > 0
    ensures Go(s, t, 0, s') && StepsToIput(PcOf(s', t)) == 0
    ensures PcOf(s, t).obj in s'.objs && s'.objs[PcOf(s, t).obj].iputs == s.objs[PcOf(s, t).obj].iputs + 1
  {
    var pc := PcOf(s, t);
    var o, i := pc.obj, pc.inode;
    s' := SetPc(SetObj(DropRef(s, Tie(i, o)), o, s.objs[o].(phase := Done, iputs := s.objs[o].iputs + 1)), t,
                if pc.Iput? then Return(o, pc.sb) else Next(pc.w, i));
  }

  lemma ReleaseReady(s: State, t: Thread)
    requires Inv(s) && StepsToIput(PcOf(s, t)) > 0
    ensures PcOf(s, t).obj in s.objs
    ensures !PcOf(s, t).Release? ==> PcOf(s, t).inode in s.inos
    ensures StepsToIput(PcOf(s, t)) == 1 ==> s.inos[PcOf(s, t).inode].count > 0 && s.objs[PcOf(s, t).obj].iputs == 0
  {
    hide Inv;
    At(s, t);
    if StepsToIput(PcOf(s, t)) == 1 {
      IputReturnsIhold(s, t);
      RefAt(s, Tie(PcOf(s, t).inode, PcOf(s, t).obj));
    }
  }

  /** The iput() of a release, and that of an unmount, return the ihold() of their object, which is still out. */
  lemma IputReturnsIhold(s: State, t: Thread)
    requires Inv(s) && (PcOf(s, t).Iput? || PcOf(s, t).IputU?)
    ensures var o := PcOf(s, t).obj;
            && o in s.objs && s.objs[o].home == PcOf(s, t).inode && s.objs[o].iholds == 1 && s.objs[o].iputs == 0
            && Tie(PcOf(s, t).inode, o) in s.refs
            && forall t' :: (PcOf(s, t').Iput? || PcOf(s, t').IputU?) && PcOf(s, t').obj == o ==> t' == t
  {
    hide Inv, ObjOk;
    AtIput(s, t);
    forall t' | (PcOf(s, t').Iput? || PcOf(s, t').IputU?) && PcOf(s, t').obj == PcOf(s, t).obj ensures t' == t {
      AtIput(s, t');
    }
    RefOfTie(s, PcOf(s, t).obj);
  }

  lemma RefOfTie(s: State, o: Object)
    requires Inv(s) && o in s.objs && s.objs[o].phase.Cleared?
    ensures s.objs[o].iholds == 1 && s.objs[o].iputs == 0 && Tie(s.objs[o].home, o) in s.refs
  {
    hide Inv;
    ObjAt(s, o);
  }

  lemma AtIput(s: State, t: Thread)
    requires Inv(s) && (PcOf(s, t).Iput? || PcOf(s, t).IputU?)
    ensures var o := PcOf(s, t).obj; o in s.objs && s.objs[o].home == PcOf(s, t).inode && s.objs[o].phase == Cleared(t)
  {
    At(s, t);
  }

  /** The inode's pointer is only reset while it points at the object that is being untied. */
  lemma ResetsOwnPointer(s: State, t: Thread)
    requires Inv(s) && (PcOf(s, t).Reset? || PcOf(s, t).ResetU?)
    ensures PcOf(s, t).inode in s.inos && s.inos[PcOf(s, t).inode].weak == Some(PcOf(s, t).obj)
  {
    assert ThreadOk(s, t);
    assert ObjOk(s, PcOf(s, t).obj);
  }

  /** An inode that is being freed has no object any more. */
  lemma FreedUntied(s: State, i: Inode, s': State)
    requires Inv(s) && Evict(s, i, s')
    ensures s.inos[i].weak == None
  {
    hide Inv;
    PointedAt(s, i);
    if s.inos[i].weak.Some? {
      TieThere(s, s.inos[i].weak.value);
    }
  }

  /** Nothing of `sb` is tied, and no release of one of its inodes is under way. */
  ghost predicate Released(s: State, sb: Sb)
  {
    && (forall i <- s.inos :: s.inos[i].sb == sb ==> s.inos[i].weak == None)
    && (forall r <- s.refs :: r.Tie? && r.inode in s.inos ==> s.inos[r.inode].sb != sb)
    && (forall t: Thread :: NotReleasing(s, t, sb))
  }

  ghost predicate NotReleasing(s: State, t: Thread, sb: Sb)
  {
    var pc := PcOf(s, t);
    && (pc.Count? && pc.inode in s.inos ==> s.inos[pc.inode].sb != sb)
    && !pc.Counts(sb)
  }

  /** hook_sb_delete only returns when no release that it had to wait for is pending, */
  lemma UnmountWaits(s: State, t: Thread, w: Unmount, s': State)
    requires Inv(s) && WaitStep(s, t, w, s')
    ensures forall t' <- s.pcs :: !s.pcs[t'].Counts(w.sb)
  {
    hide ThreadOk, ObjOk, InoOk, RefOk, UseOk, PairOk, QuietOk, RefsExact, UsesExact;
    assert Pending(s.pcs, w.sb) == {};
    forall t' <- s.pcs ensures !s.pcs[t'].Counts(w.sb) {
      assert t' !in Pending(s.pcs, w.sb);
    }
  }

  /** and if nobody has tied an object to the superblock since it was called, nothing of it is left at all. */
  lemma UnmountReleases(s: State, t: Thread, w: Unmount, s': State)
    requires Inv(s) && WaitStep(s, t, w, s') && w.sb !in s.loud
    ensures Released(s, w.sb)
  {
    UnmountWaits(s, t, w, s');
    forall k <- s.objs | s.inos[s.objs[k].home].sb == w.sb ensures s.objs[k].phase.Done? || s.objs[k].phase.Gone? {
      WaitSettled(s, t, w, k);
    }
    forall i <- s.inos | s.inos[i].sb == w.sb ensures s.inos[i].weak == None {
      PointedAt(s, i);
    }
    forall r <- s.refs | r.Tie? && r.inode in s.inos ensures s.inos[r.inode].sb != w.sb {
      assert RefOk(s, r);
    }
    forall k: Thread ensures NotReleasing(s, k, w.sb) {
      assert ThreadOk(s, k);
    }
  }

  lemma PointedAt(s: State, i: Inode)
    requires Inv(s) && i in s.inos
    ensures s.inos[i].weak.Some? ==>
      var o := s.inos[i].weak.value;
      o in s.objs && s.objs[o].home == i && (s.objs[o].phase.Tied? || s.objs[o].phase.Taken?)
  {
    hide Inv;
    InoAt(s, i);
    if s.inos[i].weak.Some? {
      ObjAt(s, s.inos[i].weak.value);
    }
  }

  lemma WaitSettled(s: State, t: Thread, w: Unmount, k: Object)
    requires Inv(s) && PcOf(s, t) == Wait(w) && w.sb !in s.loud && k in s.objs
    requires forall t' <- s.pcs :: !s.pcs[t'].Counts(w.sb)
    ensures s.objs[k].home in s.inos && (s.inos[s.objs[k].home].sb == w.sb ==> s.objs[k].phase.Done? || s.objs[k].phase.Gone?)
  {
    assert QuietOk(s, t, k) && ObjOk(s, k) && ThreadOk(s, t);
    if s.objs[k].phase.Taken? || s.objs[k].phase.Cleared? {
      assert ThreadOk(s, s.objs[k].phase.thread);
    }
  }
}
