/**
 What every step of the object/inode protocol keeps.
 */
module InodeInv {
  import opened Basics
  import opened InodeModel

  // ---------------------------------------------------------------- exact counters

  function RefsOf(refs: set<Ref>, i: Inode): set<Ref>
  {
    set r | r in refs && r.inode == i
  }

  function UsesOf(uses: set<Use>, o: Object): set<Use>
  {
    set u | u in uses && u.obj == o
  }

  function Pending(pcs: map<Thread, Pc>, sb: Sb): set<Thread>
  {
    set t | t in pcs && pcs[t].Counts(sb)
  }

  ghost predicate RefsExact(s: State)
  {
    (forall r <- s.refs :: r.inode in s.inos) && forall i <- s.inos :: s.inos[i].count == |RefsOf(s.refs, i)|
  }

  ghost predicate UsesExact(s: State)
  {
    (forall u <- s.uses :: u.obj in s.objs) && forall o <- s.objs :: s.objs[o].usage == |UsesOf(s.uses, o)|
  }

  ghost predicate PendingExact(s: State)
  {
    forall sb: Sb :: InodeRefs(s, sb) == |Pending(s.pcs, sb)|
  }

  lemma RefAdded(s: State, s': State, r: Ref)
    requires RefsExact(s) && r !in s.refs && r.inode in s.inos
    requires s'.refs == s.refs + {r} && s'.inos.Keys == s.inos.Keys
    requires forall i <- s.inos :: s'.inos[i].count == s.inos[i].count + if i == r.inode then 1 else 0
    ensures RefsExact(s')
  {
    forall i <- s'.inos ensures s'.inos[i].count == |RefsOf(s'.refs, i)| {
      if i == r.inode {
        assert RefsOf(s'.refs, i) == RefsOf(s.refs, i) + {r};
      } else {
        assert RefsOf(s'.refs, i) == RefsOf(s.refs, i);
      }
    }
  }

  lemma RefDropped(s: State, s': State, r: Ref)
    requires RefsExact(s) && r in s.refs
    requires s'.refs == s.refs - {r} && s'.inos.Keys == s.inos.Keys
    requires forall i <- s.inos :: s'.inos[i].count == s.inos[i].count - if i == r.inode then 1 else 0
    ensures RefsExact(s')
  {
    forall i <- s'.inos ensures s'.inos[i].count == |RefsOf(s'.refs, i)| {
      if i == r.inode {
        assert RefsOf(s.refs, i) == RefsOf(s'.refs, i) + {r};
      } else {
        assert RefsOf(s'.refs, i) == RefsOf(s.refs, i);
      }
    }
  }

  lemma RefKept(s: State, s': State)
    requires RefsExact(s) && s'.refs == s.refs && s.inos.Keys <= s'.inos.Keys
    requires forall i <- s'.inos :: s'.inos[i].count == if i in s.inos then s.inos[i].count else 0
    ensures RefsExact(s')
  {
    forall i <- s'.inos | i !in s.inos ensures RefsOf(s'.refs, i) == {} {
    }
  }

  lemma UseAdded(s: State, s': State, u: Use)
    requires UsesExact(s) && u !in s.uses && s'.objs.Keys == s.objs.Keys + {u.obj}
    requires s'.uses == s.uses + {u}
    requires forall o <- s'.objs :: s'.objs[o].usage == (if o in s.objs then s.objs[o].usage else 0) + if o == u.obj then 1 else 0
    ensures UsesExact(s')
  {
    forall o <- s'.objs ensures s'.objs[o].usage == |UsesOf(s'.uses, o)| {
      if o == u.obj {
        assert o !in s.objs ==> UsesOf(s.uses, o) == {};
        assert UsesOf(s'.uses, o) == UsesOf(s.uses, o) + {u};
      } else {
        assert UsesOf(s'.uses, o) == UsesOf(s.uses, o);
      }
    }
  }

  lemma UseDropped(s: State, s': State, u: Use)
    requires UsesExact(s) && u in s.uses && s'.objs.Keys == s.objs.Keys
    requires s'.uses == s.uses - {u}
    requires forall o <- s'.objs :: s'.objs[o].usage == s.objs[o].usage - if o == u.obj then 1 else 0
    ensures UsesExact(s')
  {
    forall o <- s'.objs ensures s'.objs[o].usage == |UsesOf(s'.uses, o)| {
      if o == u.obj {
        assert UsesOf(s.uses, o) == UsesOf(s'.uses, o) + {u};
      } else {
        assert UsesOf(s'.uses, o) == UsesOf(s.uses, o);
      }
    }
  }

  lemma UsePassed(s: State, s': State, u: Use, v: Use)
    requires UsesExact(s) && u in s.uses && v !in s.uses && u.obj == v.obj && s'.objs.Keys == s.objs.Keys
    requires s'.uses == s.uses - {u} + {v}
    requires forall o <- s'.objs :: s'.objs[o].usage == s.objs[o].usage
    ensures UsesExact(s')
  {
    forall o <- s'.objs ensures |UsesOf(s'.uses, o)| == |UsesOf(s.uses, o)| {
      PassedOne(s.uses, u, v, o);
    }
  }

  lemma PassedOne(uses: set<Use>, u: Use, v: Use, o: Object)
    requires u in uses && v !in uses && u.obj == v.obj
    ensures |UsesOf(uses - {u} + {v}, o)| == |UsesOf(uses, o)|
  {
    var others := UsesOf(uses - {u}, o);
    if o == u.obj {
      assert UsesOf(uses, o) == others + {u};
      assert UsesOf(uses - {u} + {v}, o) == others + {v};
    } else {
      assert UsesOf(uses, o) == others == UsesOf(uses - {u} + {v}, o);
    }
  }

  lemma UseKept(s: State, s': State)
    requires UsesExact(s) && s'.uses == s.uses && s'.objs.Keys == s.objs.Keys
    requires forall o <- s.objs :: s'.objs[o].usage == s.objs[o].usage
    ensures UsesExact(s')
  {
  }

  /** A reference that is owned is counted. */
  lemma Owned(s: State, r: Ref)
    requires RefsExact(s) && r in s.refs
    ensures r.inode in s.inos && s.inos[r.inode].count > 0
  {
    assert r in RefsOf(s.refs, r.inode);
  }

  lemma UsedCounted(s: State, u: Use)
    requires UsesExact(s) && u in s.uses
    ensures u.obj in s.objs && s.objs[u.obj].usage > 0
  {
    assert u in UsesOf(s.uses, u.obj);
  }

  lemma PendingKept(s: State, s': State, t: Thread)
    requires PendingExact(s) && s'.inodeRefs == s.inodeRefs && s'.pcs == s.pcs[t := PcOf(s', t)]
    requires forall sb :: PcOf(s', t).Counts(sb) == PcOf(s, t).Counts(sb)
    ensures PendingExact(s')
  {
    forall sb: Sb ensures InodeRefs(s', sb) == |Pending(s'.pcs, sb)| {
      assert Pending(s'.pcs, sb) == Pending(s.pcs, sb);
    }
  }

  lemma PendingMore(s: State, s': State, t: Thread, sb: Sb)
    requires PendingExact(s) && s'.pcs == s.pcs[t := PcOf(s', t)]
    requires s'.inodeRefs == s.inodeRefs[sb := InodeRefs(s, sb) + 1]
    requires forall k :: !PcOf(s, t).Counts(k) && (PcOf(s', t).Counts(k) <==> k == sb)
    ensures PendingExact(s')
  {
    forall k: Sb ensures InodeRefs(s', k) == |Pending(s'.pcs, k)| {
      assert !PcOf(s, t).Counts(k) && t !in Pending(s.pcs, k);
      if k == sb {
        assert Pending(s'.pcs, k) == Pending(s.pcs, k) + {t};
      } else {
        assert Pending(s'.pcs, k) == Pending(s.pcs, k);
      }
    }
  }

  lemma PendingLess(s: State, s': State, t: Thread, sb: Sb)
    requires PendingExact(s) && s'.pcs == s.pcs[t := PcOf(s', t)]
    requires InodeRefs(s, sb) > 0 && s'.inodeRefs == s.inodeRefs[sb := InodeRefs(s, sb) - 1]
    requires forall k :: !PcOf(s', t).Counts(k) && (PcOf(s, t).Counts(k) <==> k == sb)
    ensures PendingExact(s')
  {
    forall k: Sb ensures InodeRefs(s', k) == |Pending(s'.pcs, k)| {
      if k == sb {
        assert Pending(s.pcs, k) == Pending(s'.pcs, k) + {t};
      } else {
        assert Pending(s'.pcs, k) == Pending(s.pcs, k);
      }
    }
  }

  // ---------------------------------------------------------------- objects, inodes, threads

  /** A reference has an owner, and its inode is there. */
  ghost predicate RefOk(s: State, r: Ref)
  {
    && r.inode in s.inos && s.inos[r.inode].alive
    && match r
       case Ext(_, _) => true
       case Path(i, t) => PcOf(s, t).Getting() && PcOf(s, t).inode == i
       case Tie(i, o) => o in s.objs && s.objs[o].home == i && HasTie(s.objs[o].phase)
       case Visit(i, t) => Visits(PcOf(s, t), i)
  }

  predicate HasTie(p: Phase) { p.Held? || p.Tied? || p.Taken? || p.Cleared? }

  /** The inodes that a running hook_sb_delete holds on to. */
  predicate Visits(pc: Pc, i: Inode)
  {
    pc.Unmounting() && (pc.w.prev == Some(i) || ((pc.Test? || pc.ResetU? || pc.IputU? || pc.Next?) && pc.inode == i))
  }

  ghost predicate UseOk(s: State, u: Use)
  {
    && u.obj in s.objs
    && match u
       case User(o, _) => s.objs[o].Published()
       case InHand(o, t) => var pc := PcOf(s, t); (pc.WantInode? || pc.Assign? || pc.Put? || pc.WantObject?) && pc.obj == o
  }

  /** Whoever is said to be at work on the tie of an object is. */
  predicate AtWork(pc: Pc, o: Object, b: Obj)
  {
    match b.phase
    case Fresh(_) => pc == WantInode(b.home, o)
    case Held(_) => pc == Assign(b.home, o)
    case Taken(_) => (pc.Count? || pc.Reset? || pc.ResetU?) && pc.obj == o && pc.inode == b.home
    case Cleared(_) => (pc.Iput? || pc.IputU?) && pc.obj == o && pc.inode == b.home
    case _ => true
  }

  ghost predicate ObjOk(s: State, o: Object)
    requires o in s.objs
  {
    var b := s.objs[o];
    && b.home in s.inos
    && (!b.phase.Gone? ==> b.underobj == if b.phase.Fresh? || b.phase.Held? || b.phase.Tied? then Some(b.home) else None)
    && (HasTie(b.phase) ==> Tie(b.home, o) in s.refs)
    && (s.inos[b.home].weak == Some(o) <==> b.phase.Tied? || b.phase.Taken?)
    && b.iholds == (if HasTie(b.phase) || b.phase.Done? then 1 else 0)
    && b.iputs == (if b.phase.Done? then 1 else 0)
    && (b.phase.Fresh? || b.phase.Held? || b.phase.Taken? || b.phase.Cleared? ==> AtWork(PcOf(s, b.phase.thread), o, b))
    && (b.locker.Some? ==> var pc := PcOf(s, b.locker.value); (pc.Release? || pc.Count?) && pc.obj == o)
    && (b.phase.Tied? && b.usage == 0 ==> b.locker.Some? && PcOf(s, b.locker.value) == Release(o))
  }

  ghost predicate InoOk(s: State, i: Inode)
    requires i in s.inos
  {
    var n := s.inos[i];
    && (n.weak.Some? ==> n.weak.value in s.objs && s.objs[n.weak.value].home == i)
    && (n.locker.Some? ==> var pc := PcOf(s, n.locker.value); pc.Assign? && pc.inode == i)
  }

  ghost predicate ObjectAt(s: State, o: Object, i: Inode)
  {
    o in s.objs && s.objs[o].home == i && i in s.inos
  }

  ghost predicate WalkOk(s: State, t: Thread, w: Unmount)
  {
    && (forall i <- w.todo :: i in s.inos && s.inos[i].sb == w.sb)
    && (w.prev.Some? ==> Visit(w.prev.value, t) in s.refs && w.prev.value !in w.todo)
  }

  /** `i` is the inode that the walk is at. */
  ghost predicate AtOk(s: State, t: Thread, w: Unmount, i: Inode)
  {
    WalkOk(s, t, w) && i in s.inos && s.inos[i].sb == w.sb && i !in w.todo && w.prev != Some(i)
  }

  ghost predicate GetOk(s: State, t: Thread, pc: Pc)
    requires pc.Getting()
  {
    && Path(pc.inode, t) in s.refs
    && match pc
       case Load(_) => true
       case Create(_) => true
       case TryGet(i, o) => ObjectAt(s, o, i) && s.objs[o].Published()
       case Spin(i, o) => ObjectAt(s, o, i) && s.objs[o].Published()
       case WantInode(i, n) => InHand(n, t) in s.uses && ObjectAt(s, n, i) && s.objs[n].phase == Fresh(t)
       case Assign(i, n) =>
         && InHand(n, t) in s.uses && ObjectAt(s, n, i) && s.objs[n].phase == Held(t)
         && s.inos[i].locker == Some(t) && s.inos[i].weak == None
  }

  ghost predicate PutOk(s: State, t: Thread, pc: Pc)
  {
    match pc
    case Put(o) => InHand(o, t) in s.uses && o in s.objs && s.objs[o].Published()
    case WantObject(o) => InHand(o, t) in s.uses && o in s.objs && s.objs[o].Published()
    case Release(o) => o in s.objs && s.objs[o].locker == Some(t) && s.objs[o].Published()
    case Count(o, i) => ObjectAt(s, o, i) && s.objs[o].phase == Taken(t) && s.objs[o].locker == Some(t)
    case Reset(o, i, sb) => ObjectAt(s, o, i) && s.objs[o].phase == Taken(t) && s.inos[i].sb == sb
    case Iput(o, i, sb) => ObjectAt(s, o, i) && s.objs[o].phase == Cleared(t) && s.inos[i].sb == sb
    case _ => true
  }

  ghost predicate UnmountOk(s: State, t: Thread, pc: Pc)
    requires pc.Unmounting()
  {
    && (pc.Walk? || pc.Wait? ==> WalkOk(s, t, pc.w))
    && (pc.Wait? ==> pc.w.todo == {} && pc.w.prev == None)
    && (!pc.Walk? && !pc.Wait? ==> AtOk(s, t, pc.w, pc.inode))
    && (pc.Test? || pc.ResetU? || pc.IputU? || pc.Next? ==> Visit(pc.inode, t) in s.refs)
    && match pc
       case Test(_, i, o) => ObjectAt(s, o, i) && s.objs[o].Published()
       case ResetU(_, i, o) => ObjectAt(s, o, i) && s.objs[o].phase == Taken(t)
       case IputU(_, i, o) => ObjectAt(s, o, i) && s.objs[o].phase == Cleared(t)
       case _ => true
  }

  ghost predicate ThreadOk(s: State, t: Thread)
  {
    var pc := PcOf(s, t);
    if pc.Idle? then true else if pc.Getting() then GetOk(s, t, pc) else if pc.Unmounting() then UnmountOk(s, t, pc) else PutOk(s, t, pc)
  }

  // ---------------------------------------------------------------- unmounting

  /** At most one thread unmounts a superblock; who is still getting objects on it makes it loud. */
  ghost predicate PairOk(s: State, t: Thread, t': Thread)
  {
    PcOf(s, t).Unmounting() ==>
      var sb := PcOf(s, t).w.sb;
      && (PcOf(s, t').Unmounting() && PcOf(s, t').w.sb == sb ==> t' == t)
      && (PcOf(s, t').Getting() && PcOf(s, t').inode in s.inos && s.inos[PcOf(s, t').inode].sb == sb ==> sb in s.loud)
  }

  /** Nothing is left of the tie, or a release that inode_refs accounts for is about to finish it. */
  ghost predicate Settled(s: State, o: Object)
    requires o in s.objs
  {
    var b := s.objs[o];
    || b.phase.Done? || b.phase.Gone?
    || ((b.phase.Taken? || b.phase.Cleared?) && (PcOf(s, b.phase.thread).Reset? || PcOf(s, b.phase.thread).Iput?))
  }

  /** What hook_sb_delete may still have to do about `o`, at home in `i`. */
  predicate ToDo(pc: Pc, o: Object, i: Inode)
    requires pc.Unmounting()
  {
    || i in pc.w.todo
    || ((pc.Peek? || pc.Enter?) && pc.inode == i)
    || ((pc.Test? || pc.ResetU? || pc.IputU?) && pc.obj == o)
  }

  /** With no new ties, hook_sb_delete has settled all that it has passed. */
  ghost predicate QuietOk(s: State, t: Thread, o: Object)
  {
    var pc := PcOf(s, t);
    pc.Unmounting() && pc.w.sb !in s.loud && o in s.objs && s.objs[o].home in s.inos && s.inos[s.objs[o].home].sb == pc.w.sb ==>
      Settled(s, o) || ToDo(pc, o, s.objs[o].home)
  }

  ghost predicate Inv(s: State)
  {
    && RefsExact(s) && UsesExact(s) && PendingExact(s)
    && (forall r <- s.refs :: RefOk(s, r))
    && (forall u <- s.uses :: UseOk(s, u))
    && (forall o <- s.objs :: ObjOk(s, o))
    && (forall i <- s.inos :: InoOk(s, i))
    && (forall t: Thread :: ThreadOk(s, t))
    && (forall t: Thread, t': Thread :: PairOk(s, t, t'))
    && (forall t: Thread, o: Object :: QuietOk(s, t, o))
  }

  // ---------------------------------------------------------------- what a step leaves alone

  predicate Owns(t: Thread, r: Ref)
  {
    (r.Path? || r.Visit?) && r.thread == t
  }

  /**
   A step of `t` that touches no object but `o` and, other than its counter, no inode but `i`:
   what the other threads can rely on.
   */
  ghost predicate Guar(s: State, s': State, t: Thread, o: Option<Object>, i: Option<Inode>)
  {
    && (forall k: Thread :: k != t ==> PcOf(s', k) == PcOf(s, k))
    && (forall r <- s.refs :: r in s'.refs || r.Ext? || Owns(t, r) || (r.Tie? && o == Some(r.obj)))
    && (forall r <- s'.refs :: r in s.refs || r.Ext? || Owns(t, r) || (r.Tie? && o == Some(r.obj)))
    && (forall u <- s.uses :: u in s'.uses || u.User? || u.thread == t)
    && (forall u <- s'.uses :: u in s.uses || u.User? || u.thread == t)
    && (forall k <- s'.objs :: k in s.objs || o == Some(k))
    && (forall k <- s.objs :: k in s'.objs && ObjGuar(s.objs[k], s'.objs[k], t, o == Some(k)))
    && (forall k <- s'.inos :: k in s.inos || (s'.inos[k].weak.None? && s'.inos[k].locker.None?))
    && (forall k <- s.inos :: k in s'.inos && InoGuar(s.inos[k], s'.inos[k], t, i == Some(k), o))
    && (forall r <- s'.refs :: r.inode in s.inos ==> s'.inos[r.inode].alive == s.inos[r.inode].alive)
    && s.loud <= s'.loud
    && Busy(PcOf(s, t), o, i)
  }

  predicate ObjGuar(b: Obj, b': Obj, t: Thread, touched: bool)
  {
    && b'.home == b.home && (b.Published() ==> b'.Published())
    && (b.phase.Fresh? || b.phase.Held? || b.phase.Taken? || b.phase.Cleared? ==> b.phase.thread != t ==> b'.phase == b.phase)
    && (b.locker.Some? && b.locker.value != t ==> b'.locker == b.locker)
    && (!touched ==> b' == b.(usage := b'.usage) && (b'.usage == 0 ==> b.usage == 0))
  }

  predicate InoGuar(n: Ino, n': Ino, t: Thread, touched: bool, o: Option<Object>)
  {
    && n'.sb == n.sb
    && (n.locker.Some? && n.locker.value != t ==> n'.locker == n.locker && (n.weak == None ==> n'.weak == None))
    && (n'.weak == n.weak || (o.Some? && n.weak == o && n'.weak == None) || (o.Some? && n.weak == None && n'.weak == o))
    && (!touched ==> n' == n.(count := n'.count, alive := n'.alive))
  }

  /** The object and the inode that a thread may be at work on are the ones that its step touches. */
  predicate Busy(pc: Pc, o: Option<Object>, i: Option<Inode>)
  {
    && (pc.WantInode? || pc.Assign? || pc.Release? || pc.Count? || pc.Reset? || pc.Iput? || pc.ResetU? || pc.IputU? ==> o == Some(pc.obj))
    && (pc.Assign? ==> i == Some(pc.inode))
  }

  lemma ThreadFrame(s: State, s': State, t: Thread, o: Option<Object>, i: Option<Inode>, k: Thread)
    requires Guar(s, s', t, o, i) && ThreadOk(s, k) && k != t
    ensures ThreadOk(s', k)
  {
  }

  lemma ObjFrame(s: State, s': State, t: Thread, o: Option<Object>, i: Option<Inode>, k: Object)
    requires Guar(s, s', t, o, i) && k in s.objs && ObjOk(s, k) && o != Some(k)
    ensures ObjOk(s', k)
  {
  }

  lemma InoFrame(s: State, s': State, t: Thread, o: Option<Object>, i: Option<Inode>, k: Inode)
    requires Guar(s, s', t, o, i) && k in s.inos && InoOk(s, k) && i != Some(k)
    ensures InoOk(s', k)
  {
  }

  lemma RefFrame(s: State, s': State, t: Thread, o: Option<Object>, i: Option<Inode>, r: Ref)
    requires Guar(s, s', t, o, i) && r in s.refs && r in s'.refs && RefOk(s, r) && !Owns(t, r) && (r.Tie? ==> o != Some(r.obj))
    ensures RefOk(s', r)
  {
  }

  lemma UseFrame(s: State, s': State, t: Thread, o: Option<Object>, i: Option<Inode>, u: Use)
    requires Guar(s, s', t, o, i) && u in s.uses && UseOk(s, u) && !(u.InHand? && u.thread == t)
    ensures UseOk(s', u)
  {
  }

  lemma PairFrame(s: State, s': State, t: Thread, o: Option<Object>, i: Option<Inode>, k: Thread, k': Thread)
    requires Guar(s, s', t, o, i) && PairOk(s, k, k') && k != t && k' != t
    requires PcOf(s, k').Getting() ==> PcOf(s, k').inode in s.inos
    ensures PairOk(s', k, k')
  {
  }

  lemma QuietFrame(s: State, s': State, t: Thread, o: Option<Object>, i: Option<Inode>, k: Thread, k': Object)
    requires Guar(s, s', t, o, i) && QuietOk(s, k, k') && k != t && k' in s.objs && ObjOk(s, k')
    requires o == Some(k') && Settled(s, k') ==> Settled(s', k')
    ensures QuietOk(s', k, k')
  {
  }

  ghost predicate Exact(s: State)
  {
    RefsExact(s) && UsesExact(s) && PendingExact(s)
  }

  /** What is left to show of a step: that its own thread, object, inode and tokens are in order, */
  ghost predicate Own(s: State, s': State, t: Thread, o: Option<Object>, i: Option<Inode>)
  {
    && ThreadOk(s', t)
    && (o.Some? ==> o.value in s'.objs && ObjOk(s', o.value))
    && (i.Some? ==> i.value in s'.inos && InoOk(s', i.value))
    && (forall r <- s'.refs :: r !in s.refs || Owns(t, r) || (r.Tie? && o == Some(r.obj)) ==> RefOk(s', r))
    && (forall u <- s'.uses :: u !in s.uses || (u.InHand? && u.thread == t) ==> UseOk(s', u))
  }

  /** and that unmounting threads still know what is settled. */
  ghost predicate Calm(s: State, s': State, t: Thread, o: Option<Object>)
  {
    && (forall k: Thread :: PairOk(s', t, k) && PairOk(s', k, t))
    && (forall k: Object :: QuietOk(s', t, k))
    && (o.Some? && o.value in s.objs && Settled(s, o.value) ==> o.value in s'.objs && Settled(s', o.value))
    && (o.Some? && o.value !in s.objs ==> forall k: Thread :: QuietOk(s', k, o.value))
  }

  lemma Keeps(s: State, s': State, t: Thread, o: Option<Object>, i: Option<Inode>)
    requires Inv(s) && Guar(s, s', t, o, i) && Exact(s') && Own(s, s', t, o, i) && Calm(s, s', t, o)
    ensures Inv(s')
  {
    hide Guar, ThreadOk, ObjOk, InoOk, RefOk, UseOk, PairOk, QuietOk, Settled, RefsExact, UsesExact, PendingExact;
    GuarKeys(s, s', t, o, i);
    forall r <- s'.refs ensures RefOk(s', r) {
      if !(r !in s.refs || Owns(t, r) || (r.Tie? && o == Some(r.obj))) {
        RefFrame(s, s', t, o, i, r);
      }
    }
    forall u <- s'.uses ensures UseOk(s', u) {
      if !(u !in s.uses || (u.InHand? && u.thread == t)) {
        UseFrame(s, s', t, o, i, u);
      }
    }
    forall k <- s'.objs ensures ObjOk(s', k) {
      if o != Some(k) {
        assert k in s.objs;
        ObjFrame(s, s', t, o, i, k);
      }
    }
    forall k <- s'.inos ensures InoOk(s', k) {
      if k !in s.inos {
        NewInoOk(s, s', t, o, i, k);
      } else if i != Some(k) {
        InoFrame(s, s', t, o, i, k);
      }
    }
    forall k: Thread ensures ThreadOk(s', k) {
      if k != t {
        ThreadFrame(s, s', t, o, i, k);
      }
    }
    forall k: Thread, k': Thread ensures PairOk(s', k, k') {
      if k != t && k' != t {
        GettingThere(s, k');
        PairFrame(s, s', t, o, i, k, k');
      }
    }
    forall k: Thread, k': Object ensures QuietOk(s', k, k') {
      if k' !in s'.objs {
        NoObject(s', k, k');
      } else if k != t && k' in s.objs {
        QuietFrame(s, s', t, o, i, k, k');
      }
    }
  }

  lemma GuarKeys(s: State, s': State, t: Thread, o: Option<Object>, i: Option<Inode>)
    requires Guar(s, s', t, o, i)
    ensures s.objs.Keys <= s'.objs.Keys && forall k <- s'.objs :: k in s.objs || o == Some(k)
  {
  }

  lemma NewInoOk(s: State, s': State, t: Thread, o: Option<Object>, i: Option<Inode>, k: Inode)
    requires Guar(s, s', t, o, i) && k in s'.inos && k !in s.inos
    ensures InoOk(s', k)
  {
  }

  lemma GettingThere(s: State, t: Thread)
    requires Inv(s)
    ensures PcOf(s, t).Getting() ==> PcOf(s, t).inode in s.inos
  {
    hide ObjOk, InoOk, RefOk, UseOk, PairOk, QuietOk, UsesExact, PendingExact;
    assert ThreadOk(s, t);
  }

  lemma NoObject(s: State, t: Thread, o: Object)
    requires o !in s.objs
    ensures QuietOk(s, t, o)
  {
  }

  /** A thread that does not unmount only has to keep what is settled. */
  lemma CalmElsewhere(s: State, s': State, t: Thread, o: Option<Object>, i: Option<Inode>)
    requires Inv(s) && Guar(s, s', t, o, i) && (o.Some? ==> o.value in s.objs)
    requires !PcOf(s', t).Unmounting()
    requires PcOf(s', t).Getting() ==> PcOf(s, t).Getting() && PcOf(s', t).inode == PcOf(s, t).inode
    requires o.Some? && Settled(s, o.value) ==> o.value in s'.objs && Settled(s', o.value)
    ensures Calm(s, s', t, o)
  {
    hide Settled, ThreadOk, ObjOk, InoOk, RefOk, UseOk, RefsExact, UsesExact, PendingExact;
    GettingThere(s, t);
    forall k: Thread ensures PairOk(s', t, k) && PairOk(s', k, t) {
      assert PairOk(s, k, t);
    }
  }

  lemma At(s: State, t: Thread)
    requires Inv(s)
    ensures ThreadOk(s, t) && RefsExact(s) && UsesExact(s) && PendingExact(s)
  {
    hide ThreadOk, RefsExact, UsesExact, PendingExact;
  }

  lemma ObjAt(s: State, o: Object)
    requires Inv(s) && o in s.objs
    ensures ObjOk(s, o)
  {
    hide ObjOk;
  }

  lemma InoAt(s: State, i: Inode)
    requires Inv(s) && i in s.inos
    ensures InoOk(s, i)
  {
    hide InoOk;
  }

  lemma RefAt(s: State, r: Ref)
    requires Inv(s) && r in s.refs
    ensures RefOk(s, r) && s.inos[r.inode].count > 0
  {
    hide RefOk, Inv;
    RefOkAt(s, r);
    Owned(s, r);
  }

  lemma RefOkAt(s: State, r: Ref)
    requires Inv(s) && r in s.refs
    ensures RefOk(s, r) && RefsExact(s)
  {
    hide RefOk, RefsExact;
  }

  lemma UseAt(s: State, u: Use)
    requires Inv(s) && u in s.uses
    ensures UseOk(s, u)
  {
    hide UseOk;
  }

  /** What a step can use. */
  ghost predicate Pre(s: State, t: Thread, o: Option<Object>, i: Option<Inode>)
  {
    && RefsExact(s) && UsesExact(s) && PendingExact(s) && ThreadOk(s, t)
    && (o.Some? && o.value in s.objs ==> ObjOk(s, o.value)) && (i.Some? && i.value in s.inos ==> InoOk(s, i.value))
    && (forall r <- s.refs :: RefOk(s, r)) && (forall u <- s.uses :: UseOk(s, u))
  }

  lemma InvPre(s: State, t: Thread, o: Option<Object>, i: Option<Inode>)
    requires Inv(s)
    ensures Pre(s, t, o, i)
  {
    hide RefsExact, UsesExact, PendingExact, ThreadOk, ObjOk, InoOk, RefOk, UseOk;
  }

  lemma InvExact(s: State)
    requires Inv(s)
    ensures Exact(s)
  {
    hide RefsExact, UsesExact, PendingExact;
  }
}
