/**
 The lifetime of Landlock objects and of their ties to inodes: get_inode_object, release_inode and
 hook_sb_delete of fs.c, landlock_put_object of object.c.

 Any number of threads run these functions, one atomic step at a time. A step makes at most one access
 to what other threads can change without the lock that it holds; a critical section whose accesses
 are all covered by its lock is one step, which needs that lock to be free.

 What is only there to state properties, and never guards a step: the phase of an object, its two
 counters, the tokens that say who owns which reference, and the set of loud superblocks.
 */
module InodeModel {
  import opened Basics

  type Thread = nat
  type Object = nat
  type Inode = nat
  type Sb = nat

  /** What has become of the tie between an object and its inode. */
  datatype Phase =
    | Fresh(thread: Thread)    // not yet published by its creator
    | Held(thread: Thread)     // its creator has called ihold()
    | Tied                 // the inode points at the object
    | Taken(thread: Thread)    // `thread` has reset underobj, and is to reset the inode's pointer
    | Cleared(thread: Thread)  // `thread` has reset the inode's pointer, and is to call iput()
    | Done                 // iput() has been called
    | Gone                 // never published

  datatype Obj = Obj(home: Inode, usage: nat, underobj: Option<Inode>, locker: Option<Thread>, phase: Phase, iholds: nat, iputs: nat)
  {
    predicate Published() { phase.Tied? || phase.Taken? || phase.Cleared? || phase.Done? }
  }

  datatype Ino = Ino(sb: Sb, weak: Option<Object>, count: nat, locker: Option<Thread>, alive: bool)

  /** A reference to an inode, and who owns it. */
  datatype Ref =
    | Ext(inode: Inode, key: nat)       // the rest of the kernel
    | Path(inode: Inode, thread: Thread)    // the caller of get_inode_object
    | Tie(inode: Inode, obj: Object)    // the tie of an object
    | Visit(inode: Inode, thread: Thread)   // hook_sb_delete

  /** A reference to an object, and who owns it. */
  datatype Use =
    | User(obj: Object, key: nat)       // rules, and callers outside of the three functions
    | InHand(obj: Object, thread: Thread)

  /** Where hook_sb_delete is: the inodes that it has not met yet, and the one that it met last. */
  datatype Unmount = Unmount(sb: Sb, todo: set<Inode>, prev: Option<Inode>)

  datatype Pc =
    | Idle
    // get_inode_object
    | Load(inode: Inode)
    | TryGet(inode: Inode, obj: Object)
    | Spin(inode: Inode, obj: Object)
    | Create(inode: Inode)
    | WantInode(inode: Inode, obj: Object)
    | Assign(inode: Inode, obj: Object)
    // landlock_put_object and release_inode
    | Put(obj: Object)
    | WantObject(obj: Object)
    | Release(obj: Object)
    | Count(obj: Object, inode: Inode)
    | Reset(obj: Object, inode: Inode, sb: Sb)
    | Iput(obj: Object, inode: Inode, sb: Sb)
    | Return(obj: Object, sb: Sb)
    // hook_sb_delete
    | Walk(w: Unmount)
    | Peek(w: Unmount, inode: Inode)
    | Enter(w: Unmount, inode: Inode)
    | Test(w: Unmount, inode: Inode, obj: Object)
    | ResetU(w: Unmount, inode: Inode, obj: Object)
    | IputU(w: Unmount, inode: Inode, obj: Object)
    | Next(w: Unmount, inode: Inode)
    | Wait(w: Unmount)
  {
    predicate Getting() { Load? || TryGet? || Spin? || Create? || WantInode? || Assign? }

    predicate Unmounting() { Walk? || Peek? || Enter? || Test? || ResetU? || IputU? || Next? || Wait? }

    /** Between the two updates of inode_refs. */
    predicate Counts(s: Sb) { (Reset? || Iput? || Return?) && sb == s }
  }

  datatype State = State(objs: map<Object, Obj>, inos: map<Inode, Ino>, inodeRefs: map<Sb, nat>, pcs: map<Thread, Pc>,
                         refs: set<Ref>, uses: set<Use>, loud: set<Sb>)

  function PcOf(s: State, t: Thread): Pc
  {
    if t in s.pcs then s.pcs[t] else Idle
  }

  function InodeRefs(s: State, sb: Sb): nat
  {
    if sb in s.inodeRefs then s.inodeRefs[sb] else 0
  }

  function SetPc(s: State, t: Thread, pc: Pc): State
  {
    s.(pcs := s.pcs[t := pc])
  }

  function SetObj(s: State, o: Object, b: Obj): State
  {
    s.(objs := s.objs[o := b])
  }

  function SetIno(s: State, i: Inode, n: Ino): State
  {
    s.(inos := s.inos[i := n])
  }

  /** ihold() and __iget() */
  function AddRef(s: State, r: Ref): State
    requires r.inode in s.inos
  {
    var n := s.inos[r.inode];
    s.(refs := s.refs + {r}, inos := s.inos[r.inode := n.(count := n.count + 1)])
  }

  /** iput(), of an inode that is in use */
  function DropRef(s: State, r: Ref): State
    requires r.inode in s.inos && s.inos[r.inode].count > 0
  {
    var n := s.inos[r.inode];
    s.(refs := s.refs - {r}, inos := s.inos[r.inode := n.(count := n.count - 1)])
  }

  function AddUse(s: State, u: Use): State
    requires u.obj in s.objs
  {
    var b := s.objs[u.obj];
    s.(uses := s.uses + {u}, objs := s.objs[u.obj := b.(usage := b.usage + 1)])
  }

  function DropUse(s: State, u: Use): State
    requires u.obj in s.objs && s.objs[u.obj].usage > 0
  {
    var b := s.objs[u.obj];
    s.(uses := s.uses - {u}, objs := s.objs[u.obj := b.(usage := b.usage - 1)])
  }

  // ---------------------------------------------------------------- the rest of the kernel

  ghost predicate Init(s: State)
  {
    && s.objs == map[] && s.pcs == map[] && s.uses == {} && s.refs == {}
    && (forall i <- s.inos :: s.inos[i].weak == None && s.inos[i].count == 0 && s.inos[i].locker == None)
    && (forall sb <- s.inodeRefs :: s.inodeRefs[sb] == 0)
  }

  predicate NewInode(s: State, i: Inode, sb: Sb, s': State)
  {
    i !in s.inos && s' == SetIno(s, i, Ino(sb, None, 0, None, true))
  }

  predicate Open(s: State, i: Inode, key: nat, s': State)
  {
    i in s.inos && s.inos[i].alive && Ext(i, key) !in s.refs && s' == AddRef(s, Ext(i, key))
  }

  predicate Close(s: State, i: Inode, key: nat, s': State)
  {
    i in s.inos && s.inos[i].count > 0 && Ext(i, key) in s.refs && s' == DropRef(s, Ext(i, key))
  }

  /** An inode that is not used goes away: it is marked I_FREEING under its lock. */
  predicate Evict(s: State, i: Inode, s': State)
  {
    i in s.inos && s.inos[i].count == 0 && s.inos[i].locker.None? && s' == SetIno(s, i, s.inos[i].(alive := false))
  }

  /** landlock_get_object, by the owner of a reference */
  predicate GetObject(s: State, o: Object, key: nat, copy: nat, s': State)
  {
    o in s.objs && User(o, key) in s.uses && User(o, copy) !in s.uses && s' == AddUse(s, User(o, copy))
  }

  // ---------------------------------------------------------------- get_inode_object

  /** The caller has looked up a path, and so owns a reference to the inode during the call. */
  predicate StartGet(s: State, t: Thread, i: Inode, s': State)
  {
    && PcOf(s, t) == Idle && i in s.inos && s.inos[i].alive
    && s' == SetPc(AddRef(s, Path(i, t)), t, Load(i)).(loud := s.loud + {s.inos[i].sb})
  }

  predicate LoadStep(s: State, t: Thread, i: Inode, s': State)
  {
    && PcOf(s, t) == Load(i) && i in s.inos
    && s' == SetPc(s, t, match s.inos[i].weak case None => Create(i) case Some(o) => TryGet(i, o))
  }

  /** refcount_inc_not_zero */
  predicate TryGetStep(s: State, t: Thread, i: Inode, o: Object, key: nat, s': State)
  {
    && PcOf(s, t) == TryGet(i, o) && o in s.objs && i in s.inos && s.inos[i].count > 0
    && if s.objs[o].usage > 0 then
         User(o, key) !in s.uses && s' == SetPc(DropRef(AddUse(s, User(o, key)), Path(i, t)), t, Idle)
       else
         s' == SetPc(s, t, Spin(i, o))
  }

  predicate SpinStep(s: State, t: Thread, i: Inode, o: Object, s': State)
  {
    PcOf(s, t) == Spin(i, o) && o in s.objs && s.objs[o].locker.None? && s' == SetPc(s, t, Load(i))
  }

  /** landlock_create_object; without memory, the call fails. */
  predicate CreateStep(s: State, t: Thread, i: Inode, n: Object, s': State)
  {
    && PcOf(s, t) == Create(i) && i in s.inos && s.inos[i].count > 0
    && (|| s' == SetPc(DropRef(s, Path(i, t)), t, Idle)
        || (n !in s.objs &&
            s' == SetPc(AddUse(SetObj(s, n, Obj(i, 0, Some(i), None, Fresh(t), 0, 0)), InHand(n, t)), t, WantInode(i, n))))
  }

  /** With the inode's lock: either someone else was faster, or ihold(). */
  predicate WantInodeStep(s: State, t: Thread, i: Inode, n: Object, s': State)
  {
    && PcOf(s, t) == WantInode(i, n) && i in s.inos && n in s.objs && s.objs[n].usage > 0 && s.inos[i].locker.None?
    && if s.inos[i].weak.Some? then
         s' == SetPc(SetObj(DropUse(s, InHand(n, t)), n, s.objs[n].(usage := s.objs[n].usage - 1, phase := Gone)), t, Load(i))
       else
         var b, r := s.objs[n], AddRef(s, Tie(i, n));
         s' == SetPc(SetObj(SetIno(r, i, r.inos[i].(locker := Some(t))), n, b.(phase := Held(t), iholds := b.iholds + 1)), t, Assign(i, n))
  }

  /** The pointer is published, and the lock given back; the caller gets the reference. */
  predicate AssignStep(s: State, t: Thread, i: Inode, n: Object, key: nat, s': State)
  {
    && PcOf(s, t) == Assign(i, n) && i in s.inos && n in s.objs && s.inos[i].count > 0 && User(n, key) !in s.uses
    && var r := DropRef(s, Path(i, t));
       s' == SetPc(SetObj(SetIno(r, i, r.inos[i].(weak := Some(n), locker := None)), n, s.objs[n].(phase := Tied)), t, Idle)
             .(uses := s.uses - {InHand(n, t)} + {User(n, key)})
  }

  // ---------------------------------------------------------------- landlock_put_object, release_inode

  predicate StartPut(s: State, t: Thread, o: Object, key: nat, s': State)
  {
    && PcOf(s, t) == Idle && o in s.objs && User(o, key) in s.uses
    && s' == SetPc(s, t, Put(o)).(uses := s.uses - {User(o, key)} + {InHand(o, t)})
  }

  /** The first half of refcount_dec_and_lock: without the lock as long as it is not the last reference. */
  predicate PutStep(s: State, t: Thread, o: Object, s': State)
  {
    && PcOf(s, t) == Put(o) && o in s.objs && s.objs[o].usage > 0
    && s' == if s.objs[o].usage > 1 then SetPc(DropUse(s, InHand(o, t)), t, Idle) else SetPc(s, t, WantObject(o))
  }

  /** Its second half: with the lock, which is kept if the reference was the last one. */
  predicate WantObjectStep(s: State, t: Thread, o: Object, s': State)
  {
    && PcOf(s, t) == WantObject(o) && o in s.objs && s.objs[o].usage > 0 && s.objs[o].locker.None?
    && var r := DropUse(s, InHand(o, t));
       s' == if s.objs[o].usage > 1 then SetPc(r, t, Idle) else SetPc(SetObj(r, o, r.objs[o].(locker := Some(t))), t, Release(o))
  }

  predicate ReleaseStep(s: State, t: Thread, o: Object, s': State)
  {
    && PcOf(s, t) == Release(o) && o in s.objs
    && var b := s.objs[o];
       s' == match b.underobj
         case None => SetPc(SetObj(s, o, b.(locker := None)), t, Idle)
         case Some(i) => SetPc(SetObj(s, o, b.(underobj := None, phase := Taken(t))), t, Count(o, i))
  }

  predicate CountStep(s: State, t: Thread, o: Object, i: Inode, s': State)
  {
    && PcOf(s, t) == Count(o, i) && o in s.objs && i in s.inos
    && var sb := s.inos[i].sb;
       s' == SetPc(SetObj(s, o, s.objs[o].(locker := None)), t, Reset(o, i, sb)).(inodeRefs := s.inodeRefs[sb := InodeRefs(s, sb) + 1])
  }

  predicate ResetStep(s: State, t: Thread, o: Object, i: Inode, sb: Sb, s': State)
  {
    && PcOf(s, t) == Reset(o, i, sb) && o in s.objs && i in s.inos
    && s' == SetPc(SetIno(SetObj(s, o, s.objs[o].(phase := Cleared(t))), i, s.inos[i].(weak := None)), t, Iput(o, i, sb))
  }

  predicate IputStep(s: State, t: Thread, o: Object, i: Inode, sb: Sb, s': State)
  {
    && PcOf(s, t) == Iput(o, i, sb) && o in s.objs && i in s.inos && s.inos[i].count > 0
    && s' == SetPc(SetObj(DropRef(s, Tie(i, o)), o, s.objs[o].(phase := Done, iputs := s.objs[o].iputs + 1)), t, Return(o, sb))
  }

  predicate ReturnStep(s: State, t: Thread, o: Object, sb: Sb, s': State)
  {
    && PcOf(s, t) == Return(o, sb) && InodeRefs(s, sb) > 0
    && s' == SetPc(s, t, Idle).(inodeRefs := s.inodeRefs[sb := InodeRefs(s, sb) - 1])
  }

  // ---------------------------------------------------------------- hook_sb_delete

  /** The superblock is loud from the start if someone is still at get_inode_object. */
  predicate StartUnmount(s: State, t: Thread, sb: Sb, s': State)
  {
    && PcOf(s, t) == Idle
    && (forall t' <- s.pcs :: s.pcs[t'].Unmounting() ==> s.pcs[t'].w.sb != sb)
    && var todo := set i | i in s.inos && s.inos[i].alive && s.inos[i].sb == sb;
       var loud := exists t' <- s.pcs :: s.pcs[t'].Getting() && s.pcs[t'].inode in s.inos && s.inos[s.pcs[t'].inode].sb == sb;
       s' == SetPc(s, t, Walk(Unmount(sb, todo, None))).(loud := if loud then s.loud + {sb} else s.loud - {sb})
  }

  /** The next inode of the list, or its end. */
  predicate WalkStep(s: State, t: Thread, w: Unmount, i: Inode, s': State)
  {
    && PcOf(s, t) == Walk(w)
    && if w.todo != {} then
         i in w.todo && s' == SetPc(s, t, Peek(w.(todo := w.todo - {i}), i))
       else if w.prev.Some? then
         && w.prev.value in s.inos && s.inos[w.prev.value].count > 0
         && s' == SetPc(DropRef(s, Visit(w.prev.value, t)), t, Walk(w.(prev := None)))
       else
         s' == SetPc(s, t, Wait(w))
  }

  predicate PeekStep(s: State, t: Thread, w: Unmount, i: Inode, s': State)
  {
    PcOf(s, t) == Peek(w, i) && i in s.inos && s' == SetPc(s, t, if s.inos[i].count == 0 then Walk(w) else Enter(w, i))
  }

  /** With the inode's lock: skips what is being freed or has no object, else __iget(). */
  predicate EnterStep(s: State, t: Thread, w: Unmount, i: Inode, s': State)
  {
    && PcOf(s, t) == Enter(w, i) && i in s.inos && s.inos[i].locker.None?
    && s' == if s.inos[i].alive && s.inos[i].weak.Some? then SetPc(AddRef(s, Visit(i, t)), t, Test(w, i, s.inos[i].weak.value))
             else SetPc(s, t, Walk(w))
  }

  /** With the object's lock: takes over the tie, unless a release has. */
  predicate TestStep(s: State, t: Thread, w: Unmount, i: Inode, o: Object, s': State)
  {
    && PcOf(s, t) == Test(w, i, o) && o in s.objs && s.objs[o].locker.None?
    && s' == if s.objs[o].underobj == Some(i) then SetPc(SetObj(s, o, s.objs[o].(underobj := None, phase := Taken(t))), t, ResetU(w, i, o))
             else SetPc(s, t, Next(w, i))
  }

  predicate ResetUStep(s: State, t: Thread, w: Unmount, i: Inode, o: Object, s': State)
  {
    && PcOf(s, t) == ResetU(w, i, o) && o in s.objs && i in s.inos
    && s' == SetPc(SetIno(SetObj(s, o, s.objs[o].(phase := Cleared(t))), i, s.inos[i].(weak := None)), t, IputU(w, i, o))
  }

  predicate IputUStep(s: State, t: Thread, w: Unmount, i: Inode, o: Object, s': State)
  {
    && PcOf(s, t) == IputU(w, i, o) && o in s.objs && i in s.inos && s.inos[i].count > 0
    && s' == SetPc(SetObj(DropRef(s, Tie(i, o)), o, s.objs[o].(phase := Done, iputs := s.objs[o].iputs + 1)), t, Next(w, i))
  }

  predicate NextStep(s: State, t: Thread, w: Unmount, i: Inode, s': State)
  {
    && PcOf(s, t) == Next(w, i)
    && var pc := Walk(w.(prev := Some(i)));
       if w.prev.Some? then
         && w.prev.value in s.inos && s.inos[w.prev.value].count > 0
         && s' == SetPc(DropRef(s, Visit(w.prev.value, t)), t, pc)
       else
         s' == SetPc(s, t, pc)
  }

  /** wait_var_event, and the return of hook_sb_delete. */
  predicate WaitStep(s: State, t: Thread, w: Unmount, s': State)
  {
    PcOf(s, t) == Wait(w) && InodeRefs(s, w.sb) == 0 && s' == SetPc(s, t, Idle)
  }
}
