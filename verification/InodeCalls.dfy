/**
 What the calls of get_inode_object and landlock_put_object come to for their callers, and that they come to an
 end when nobody is in the way.
 */
module InodeCalls {
  import opened Basics
  import opened InodeModel
  import opened InodeInv
  import opened InodeSafety

  /** Inside landlock_put_object. */
  predicate Putting(pc: Pc)
  {
    pc.Put? || pc.WantObject? || pc.Release? || pc.Count? || pc.Reset? || pc.Iput? || pc.Return?
  }

  /** The references of rules and callers; those in hand belong to a call. */
  function Users(s: State): set<Use>
  {
    set u | u in s.uses && u.User?
  }

  // ---------------------------------------------------------------- what a call returns

  /**
   A call of get_inode_object returns in one of two ways: without memory, when it has changed no object and given
   nothing away, or with a reference of its own to a published object of the inode.
   */
  lemma GetReturns(s: State, t: Thread, choice: nat, s': State)
    requires Inv(s) && Go(s, t, choice, s') && PcOf(s, t).Getting() && PcOf(s', t).Idle?
    ensures
      || (PcOf(s, t).Create? && s'.objs == s.objs && s'.uses == s.uses)
      || (exists o :: && User(o, choice) in s'.uses - s.uses && Users(s') == Users(s) + {User(o, choice)} && o in s'.objs
                      && s'.objs[o].home == PcOf(s, t).inode && s'.objs[o].Published() && s'.objs[o].usage > 0)
  {
    hide Inv;
    At(s, t);
    var pc := PcOf(s, t);
    if pc.TryGet? {
      assert User(pc.obj, choice) in s'.uses - s.uses && Users(s') == Users(s) + {User(pc.obj, choice)};
    } else if pc.Assign? {
      UsedCounted(s, InHand(pc.obj, t));
      assert User(pc.obj, choice) in s'.uses - s.uses && Users(s') == Users(s) + {User(pc.obj, choice)};
    }
  }

  /** The same references to objects, but for those in the hands of calls, and to inodes, but for those of calls and ties. */
  ghost predicate SameOwners(s: State, s': State)
  {
    (forall u: Use :: u.User? ==> (u in s'.uses <==> u in s.uses)) && forall r: Ref :: r.Ext? ==> (r in s'.refs <==> r in s.refs)
  }

  lemma GetKeepsOwners(s: State, t: Thread, choice: nat, s': State)
    requires Go(s, t, choice, s') && PcOf(s, t).Getting() && !PcOf(s', t).Idle?
    ensures SameOwners(s, s')
  {
  }

  lemma PutKeepsOwners(s: State, t: Thread, choice: nat, s': State)
    requires Go(s, t, choice, s') && Putting(PcOf(s, t))
    ensures SameOwners(s, s')
  {
  }

  lemma UnmountKeepsOwners(s: State, t: Thread, choice: nat, s': State)
    requires Go(s, t, choice, s') && PcOf(s, t).Unmounting()
    ensures SameOwners(s, s')
  {
  }

  /**
   Until a get_inode_object returns, and in every step of the other functions, nobody's reference to an object is
   taken or given, and nor is a reference to an inode that the rest of the kernel owns.
   */
  lemma OthersKeep(s: State, t: Thread, choice: nat, s': State)
    requires Go(s, t, choice, s') && !(PcOf(s, t).Getting() && PcOf(s', t).Idle?)
    ensures SameOwners(s, s')
  {
    hide Go, SameOwners;
    if PcOf(s, t).Getting() {
      GetKeepsOwners(s, t, choice, s');
    } else if PcOf(s, t).Unmounting() {
      UnmountKeepsOwners(s, t, choice, s');
    } else {
      NotIdle(s, t, choice, s');
      PutKeepsOwners(s, t, choice, s');
    }
  }

  lemma NotIdle(s: State, t: Thread, choice: nat, s': State)
    requires Go(s, t, choice, s')
    ensures !PcOf(s, t).Idle?
  {
  }

  /** A call of landlock_put_object returns without the reference that it was given; no thread holds on to one after a call. */
  lemma PutReturns(s: State, t: Thread, choice: nat, s': State)
    requires Inv(s) && Go(s, t, choice, s') && PcOf(s', t).Idle?
    ensures forall u <- s'.uses :: u.InHand? ==> u.thread != t
    ensures forall r <- s'.refs :: (!r.Path? && !r.Visit?) || r.thread != t
  {
    GoKeeps(s, t, choice, s');
    hide Inv;
    forall u <- s'.uses ensures u.InHand? ==> u.thread != t {
      UseAt(s', u);
    }
    forall r <- s'.refs ensures (!r.Path? && !r.Visit?) || r.thread != t {
      RefAt(s', r);
    }
  }

  // ---------------------------------------------------------------- who waits for whom

  /** The locks that a step may have to wait for, and the wait for pending releases. */
  predicate Waits(s: State, t: Thread)
  {
    match PcOf(s, t)
    case Spin(_, o) => o in s.objs && s.objs[o].locker.Some?
    case WantInode(i, _) => i in s.inos && s.inos[i].locker.Some?
    case WantObject(o) => o in s.objs && s.objs[o].locker.Some?
    case Enter(_, i) => i in s.inos && s.inos[i].locker.Some?
    case Test(_, _, o) => o in s.objs && s.objs[o].locker.Some?
    case Wait(w) => InodeRefs(s, w.sb) > 0
    case _ => false
  }

  lemma FreshKey(s: State) returns (key: nat)
    ensures forall o: Object :: User(o, key) !in s.uses
    ensures key !in s.objs
  {
    var keys := set u | u in s.uses && u.User? :: u.key;
    key := Above(keys + s.objs.Keys);
    assert forall u <- s.uses :: u.User? ==> u.key in keys;
  }

  lemma GetCanStep(s: State, t: Thread) returns (choice: nat, s': State)
    requires Inv(s) && PcOf(s, t).Getting() && !Waits(s, t)
    ensures Go(s, t, choice, s') && (PcOf(s, t).Create? ==> !PcOf(s', t).Idle?)
  {
    choice := FreshKey(s);
    At(s, t);
    var pc := PcOf(s, t);
    RefAt(s, Path(pc.inode, t));
    hide Inv;
    match pc
    case Load(i) =>
      s' := SetPc(s, t, match s.inos[i].weak case None => Create(i) case Some(o) => TryGet(i, o));
    case TryGet(i, o) =>
      s' := if s.objs[o].usage > 0 then SetPc(DropRef(AddUse(s, User(o, choice)), Path(i, t)), t, Idle) else SetPc(s, t, Spin(i, o));
    case Spin(i, o) =>
      s' := SetPc(s, t, Load(i));
    case Create(i) =>
      s' := SetPc(AddUse(SetObj(s, choice, Obj(i, 0, Some(i), None, Fresh(t), 0, 0)), InHand(choice, t)), t, WantInode(i, choice));
    case WantInode(_, _) =>
      s' := WantCanStep(s, t);
    case Assign(i, n) =>
      var r := DropRef(s, Path(i, t));
      s' := SetPc(SetObj(SetIno(r, i, r.inos[i].(weak := Some(n), locker := None)), n, s.objs[n].(phase := Tied)), t, Idle)
            .(uses := s.uses - {InHand(n, t)} + {User(n, choice)});
  }

  lemma WantAt(s: State, t: Thread)
    requires Inv(s) && PcOf(s, t).WantInode?
    ensures ObjectAt(s, PcOf(s, t).obj, PcOf(s, t).inode) && s.objs[PcOf(s, t).obj].usage > 0
  {
    hide Inv, UsesExact;
    At(s, t);
    UsedCounted(s, InHand(PcOf(s, t).obj, t));
  }

  lemma WantCanStep(s: State, t: Thread) returns (s': State)
    requires Inv(s) && PcOf(s, t).WantInode? && !Waits(s, t)
    ensures WantInodeStep(s, t, PcOf(s, t).inode, PcOf(s, t).obj, s')
  {
    hide Inv, UsesExact, RefsExact, PendingExact, ThreadOk;
    WantAt(s, t);
    var i, n := PcOf(s, t).inode, PcOf(s, t).obj;
    if s.inos[i].weak.Some? {
      s' := SetPc(SetObj(DropUse(s, InHand(n, t)), n, s.objs[n].(usage := s.objs[n].usage - 1, phase := Gone)), t, Load(i));
    } else {
      var b, r := s.objs[n], AddRef(s, Tie(i, n));
      s' := SetPc(SetObj(SetIno(r, i, r.inos[i].(locker := Some(t))), n, b.(phase := Held(t), iholds := b.iholds + 1)), t, Assign(i, n));
    }
  }

  lemma PutCanStep(s: State, t: Thread) returns (s': State)
    requires Inv(s) && Putting(PcOf(s, t)) && !Waits(s, t)
    ensures Go(s, t, 0, s')
  {
    At(s, t);
    hide Inv;
    var pc := PcOf(s, t);
    if pc.Put? {
      UsedCounted(s, InHand(pc.obj, t));
      s' := if s.objs[pc.obj].usage > 1 then SetPc(DropUse(s, InHand(pc.obj, t)), t, Idle) else SetPc(s, t, WantObject(pc.obj));
    } else if pc.WantObject? {
      UsedCounted(s, InHand(pc.obj, t));
      var r := DropUse(s, InHand(pc.obj, t));
      s' := if s.objs[pc.obj].usage > 1 then SetPc(r, t, Idle)
            else SetPc(SetObj(r, pc.obj, r.objs[pc.obj].(locker := Some(t))), t, Release(pc.obj));
    } else if pc.Return? {
      IsPending(s, t, pc.sb);
      s' := SetPc(s, t, Idle).(inodeRefs := s.inodeRefs[pc.sb := InodeRefs(s, pc.sb) - 1]);
    } else {
      s' := ReleaseGoesOn(s, t);
    }
  }

  lemma IsPending(s: State, t: Thread, sb: Sb)
    requires PendingExact(s) && PcOf(s, t).Counts(sb)
    ensures InodeRefs(s, sb) > 0
  {
    assert t in Pending(s.pcs, sb);
  }

  lemma UnmountCanStep(s: State, t: Thread) returns (choice: nat, s': State)
    requires Inv(s) && PcOf(s, t).Unmounting() && !Waits(s, t)
    ensures Go(s, t, choice, s')
  {
    At(s, t);
    var pc := PcOf(s, t);
    var w := pc.w;
    choice := 0;
    if (pc.Walk? || pc.Next?) && w.prev.Some? {
      RefAt(s, Visit(w.prev.value, t));
    }
    if pc.ResetU? || pc.IputU? {
      s' := ReleaseGoesOn(s, t);
      return;
    }
    hide Inv;
    if pc.Walk? {
      if w.todo != {} {
        choice :| choice in w.todo;
        s' := SetPc(s, t, Peek(w.(todo := w.todo - {choice}), choice));
      } else if w.prev.Some? {
        s' := SetPc(DropRef(s, Visit(w.prev.value, t)), t, Walk(w.(prev := None)));
      } else {
        s' := SetPc(s, t, Wait(w));
      }
    } else if pc.Peek? {
      s' := SetPc(s, t, if s.inos[pc.inode].count == 0 then Walk(w) else Enter(w, pc.inode));
    } else if pc.Enter? {
      var i := pc.inode;
      s' := if s.inos[i].alive && s.inos[i].weak.Some? then SetPc(AddRef(s, Visit(i, t)), t, Test(w, i, s.inos[i].weak.value))
            else SetPc(s, t, Walk(w));
    } else if pc.Test? {
      var i, o := pc.inode, pc.obj;
      s' := if s.objs[o].underobj == Some(i) then SetPc(SetObj(s, o, s.objs[o].(underobj := None, phase := Taken(t))), t, ResetU(w, i, o))
            else SetPc(s, t, Next(w, i));
    } else if pc.Next? {
      var after := Walk(w.(prev := Some(pc.inode)));
      s' := if w.prev.Some? then SetPc(DropRef(s, Visit(w.prev.value, t)), t, after) else SetPc(s, t, after);
    } else {
      s' := SetPc(s, t, Idle);
    }
  }

  /** A thread inside a call can take its next step at once, unless it waits for a lock, or for pending releases. */
  lemma CanStep(s: State, t: Thread) returns (choice: nat, s': State)
    requires Inv(s) && !PcOf(s, t).Idle? && !Waits(s, t)
    ensures Go(s, t, choice, s')
  {
    hide Inv, Go;
    choice := 0;
    if PcOf(s, t).Getting() {
      choice, s' := GetCanStep(s, t);
    } else if PcOf(s, t).Unmounting() {
      choice, s' := UnmountCanStep(s, t);
    } else {
      s' := PutCanStep(s, t);
    }
  }

  /** Who waits for somebody who can go on: there is no deadlock. */
  lemma NoDeadlock(s: State, t: Thread) returns (k: Thread, choice: nat, s': State)
    requires Inv(s) && !PcOf(s, t).Idle?
    ensures Go(s, k, choice, s')
  {
    k := t;
    if Waits(s, t) {
      k := WaitedFor(s, t);
    }
    choice, s' := CanStep(s, k);
  }

  lemma WaitedFor(s: State, t: Thread) returns (k: Thread)
    requires Inv(s) && Waits(s, t)
    ensures !PcOf(s, k).Idle? && !Waits(s, k)
  {
    At(s, t);
    hide Inv;
    var pc := PcOf(s, t);
    if pc.Spin? || pc.WantObject? || pc.Test? {
      ObjAt(s, pc.obj);
      k := s.objs[pc.obj].locker.value;
    } else if pc.WantInode? || pc.Enter? {
      InoAt(s, pc.inode);
      k := s.inos[pc.inode].locker.value;
    } else {
      assert Pending(s.pcs, pc.w.sb) != {};
      k :| k in Pending(s.pcs, pc.w.sb);
    }
  }

  // ---------------------------------------------------------------- a call that nobody disturbs

  /** Nobody is in the way of a get_inode_object: no lock is taken, and the inode's object, if any, is not being released. */
  predicate Undisturbed(s: State, t: Thread)
  {
    var pc := PcOf(s, t);
    && pc.Getting() && pc.inode in s.inos
    && (s.inos[pc.inode].locker.None? || pc.Assign?)
    && (s.inos[pc.inode].weak.Some? ==> s.inos[pc.inode].weak.value in s.objs && s.objs[s.inos[pc.inode].weak.value].usage > 0)
    && (pc.TryGet? || pc.Spin? ==> pc.obj in s.objs && (s.objs[pc.obj].usage > 0 || s.objs[pc.obj].locker.None?))
    && (pc.Spin? ==> s.objs[pc.obj].locker.None?)
  }

  /** How many steps such a call has to take at most. */
  function StepsToGet(s: State, t: Thread): nat
    requires Undisturbed(s, t)
  {
    var pc := PcOf(s, t);
    var tied := s.inos[pc.inode].weak.Some?;
    match pc
    case Load(_) => if tied then 2 else 4
    case TryGet(_, o) => if s.objs[o].usage > 0 then 1 else 6
    case Spin(_, _) => 5
    case Create(_) => if tied then 4 else 3
    case WantInode(_, _) => if tied then 3 else 2
    case _ => 1
  }

  /** Each of its steps is one of them, and the last one hands over a reference. */
  lemma GetGoesOn(s: State, t: Thread) returns (choice: nat, s': State)
    requires Inv(s) && Undisturbed(s, t)
    ensures Go(s, t, choice, s') && Inv(s')
    ensures if PcOf(s', t).Idle? then exists o :: User(o, choice) in s'.uses - s.uses && o in s'.objs && s'.objs[o].home == PcOf(s, t).inode
            else Undisturbed(s', t) && StepsToGet(s', t) < StepsToGet(s, t) && PcOf(s', t).inode == PcOf(s, t).inode
  {
    At(s, t);
    hide Inv, Go;
    choice, s' := GetCanStep(s, t);
    GoKeeps(s, t, choice, s');
    if PcOf(s', t).Idle? {
      GetReturns(s, t, choice, s');
    } else if PcOf(s, t).WantInode? {
      WantNext(s, t, choice, s');
    } else {
      GetNext(s, t, choice, s');
    }
  }

  lemma GetNext(s: State, t: Thread, choice: nat, s': State)
    requires Inv(s) && Undisturbed(s, t) && !PcOf(s, t).WantInode? && Go(s, t, choice, s') && !PcOf(s', t).Idle?
    ensures Undisturbed(s', t) && StepsToGet(s', t) < StepsToGet(s, t) && PcOf(s', t).inode == PcOf(s, t).inode
  {
    hide Inv;
    if s.inos[PcOf(s, t).inode].weak.Some? {
      InoAt(s, PcOf(s, t).inode);
    }
  }

  /** A call that finds a live object tied to the inode returns that object. */
  lemma GetFinds(s: State, t: Thread, choice: nat, s': State)
    requires Inv(s) && Go(s, t, choice, s')
    ensures PcOf(s, t).Load? && s.inos[PcOf(s, t).inode].weak.Some? ==> PcOf(s', t) == TryGet(PcOf(s, t).inode, s.inos[PcOf(s, t).inode].weak.value)
    ensures PcOf(s, t).TryGet? && s.objs[PcOf(s, t).obj].usage > 0 ==>
      PcOf(s', t).Idle? && User(PcOf(s, t).obj, choice) in s'.uses - s.uses
  {
    hide Inv;
  }

  lemma WantNext(s: State, t: Thread, choice: nat, s': State)
    requires Inv(s) && Undisturbed(s, t) && PcOf(s, t).WantInode? && Go(s, t, choice, s')
    ensures Undisturbed(s', t) && StepsToGet(s', t) < StepsToGet(s, t) && PcOf(s', t).inode == PcOf(s, t).inode
  {
    hide Inv, UsesExact, RefsExact, PendingExact;
    At(s, t);
    var i, n := PcOf(s, t).inode, PcOf(s, t).obj;
    ObjAt(s, n);
    if s.inos[i].weak.Some? {
      WantLost(s, t, i, n, s');
    } else {
      assert PcOf(s', t) == Assign(i, n) && s'.inos[i].weak.None?;
    }
  }

  lemma WantLost(s: State, t: Thread, i: Inode, n: Object, s': State)
    requires WantInodeStep(s, t, i, n, s') && s.inos[i].weak.Some? && s.inos[i].weak != Some(n) && Undisturbed(s, t)
    ensures Undisturbed(s', t) && PcOf(s', t) == Load(i) && StepsToGet(s', t) < StepsToGet(s, t)
  {
  }

  /** The states of a thread that goes on alone. */
  ghost predicate Alone(states: seq<State>, choices: seq<nat>, t: Thread)
  {
    |states| == |choices| + 1 && forall k :: 0 <= k < |choices| ==> Go(states[k], t, choices[k], states[k + 1])
  }

  lemma AloneLonger(s: State, choice: nat, states: seq<State>, choices: seq<nat>, t: Thread)
    requires Alone(states, choices, t) && Go(s, t, choice, states[0])
    ensures Alone([s] + states, [choice] + choices, t)
  {
    hide Go;
    var more, rest := [s] + states, [choice] + choices;
    forall k | 0 <= k < |rest| ensures Go(more[k], t, rest[k], more[k + 1]) {
      if k > 0 {
        assert more[k] == states[k - 1] && rest[k] == choices[k - 1];
      }
    }
  }

  /** So a call of get_inode_object that nobody disturbs returns a reference to an object of the inode, after at most six steps. */
  lemma {:induction false} GetAlone(s: State, t: Thread) returns (states: seq<State>, choices: seq<nat>)
    requires Inv(s) && Undisturbed(s, t)
    ensures Alone(states, choices, t) && states[0] == s && 1 <= |choices| <= StepsToGet(s, t) <= 6
    ensures var last, before := states[|choices|], states[|choices| - 1];
            && PcOf(last, t).Idle?
            && exists o :: User(o, choices[|choices| - 1]) in last.uses - before.uses && o in last.objs && last.objs[o].home == PcOf(s, t).inode
    decreases StepsToGet(s, t)
  {
    hide Inv, Go, Undisturbed;
    var choice, s' := GetGoesOn(s, t);
    states, choices := [s, s'], [choice];
    if !PcOf(s', t).Idle? {
      var more, rest := GetAlone(s', t);
      AloneLonger(s, choice, more, rest, t);
      states, choices := [s] + more, [choice] + rest;
    }
  }

  // ---------------------------------------------------------------- an unmount that nobody disturbs

  /** Nobody is getting an object of an inode of `sb`, and so hook_sb_delete meets no new ties. */
  ghost predicate NobodyGets(s: State, sb: Sb)
  {
    sb !in s.loud && forall t: Thread :: PcOf(s, t).Getting() && PcOf(s, t).inode in s.inos ==> s.inos[PcOf(s, t).inode].sb != sb
  }

  /** The step keeps the superblock of every inode, and lets nobody but `t` get objects that did not before. */
  ghost predicate Tame(s: State, s': State, t: Thread)
  {
    && s'.loud == s.loud && s.inos.Keys <= s'.inos.Keys && (forall i <- s.inos :: s'.inos[i].sb == s.inos[i].sb)
    && (forall k: Thread :: k != t ==> PcOf(s', k) == PcOf(s, k))
    && (PcOf(s', t).Getting() ==> PcOf(s, t).Getting() && PcOf(s', t).inode == PcOf(s, t).inode)
  }

  lemma WantTame(s: State, t: Thread, choice: nat, s': State)
    requires Go(s, t, choice, s') && (PcOf(s, t).WantInode? || PcOf(s, t).Assign?)
    ensures Tame(s, s', t)
  {
  }

  lemma GetTame(s: State, t: Thread, choice: nat, s': State)
    requires Go(s, t, choice, s') && PcOf(s, t).Getting()
    ensures Tame(s, s', t)
  {
    if PcOf(s, t).WantInode? || PcOf(s, t).Assign? {
      hide Go, Tame;
      WantTame(s, t, choice, s');
    }
  }

  lemma PutTame(s: State, t: Thread, choice: nat, s': State)
    requires Go(s, t, choice, s') && Putting(PcOf(s, t))
    ensures Tame(s, s', t)
  {
  }

  lemma WalkTame(s: State, t: Thread, choice: nat, s': State)
    requires Go(s, t, choice, s') && (PcOf(s, t).Walk? || PcOf(s, t).Next? || PcOf(s, t).Wait?)
    ensures Tame(s, s', t)
  {
  }

  lemma UntieTame(s: State, t: Thread, choice: nat, s': State)
    requires Go(s, t, choice, s') && (PcOf(s, t).Test? || PcOf(s, t).ResetU? || PcOf(s, t).IputU?)
    ensures Tame(s, s', t)
  {
  }

  lemma UnmountTame(s: State, t: Thread, choice: nat, s': State)
    requires Go(s, t, choice, s') && PcOf(s, t).Unmounting()
    ensures Tame(s, s', t)
  {
    var pc := PcOf(s, t);
    if pc.Walk? || pc.Next? || pc.Wait? {
      hide Go, Tame;
      WalkTame(s, t, choice, s');
    } else if pc.Test? || pc.ResetU? || pc.IputU? {
      hide Go, Tame;
      UntieTame(s, t, choice, s');
    }
  }

  lemma TameKeeps(s: State, s': State, t: Thread, sb: Sb)
    requires Inv(s) && Tame(s, s', t) && NobodyGets(s, sb)
    ensures NobodyGets(s', sb)
  {
    forall k: Thread | PcOf(s', k).Getting() && PcOf(s', k).inode in s'.inos ensures s'.inos[PcOf(s', k).inode].sb != sb {
      GetsThere(s, k);
    }
  }

  lemma GetsThere(s: State, t: Thread)
    requires Inv(s)
    ensures PcOf(s, t).Getting() ==> PcOf(s, t).inode in s.inos
  {
    At(s, t);
    if PcOf(s, t).Getting() {
      RefAt(s, Path(PcOf(s, t).inode, t));
    }
  }

  lemma GoKeepsCalm(s: State, t: Thread, choice: nat, s': State, sb: Sb)
    requires Inv(s) && Go(s, t, choice, s') && NobodyGets(s, sb)
    ensures NobodyGets(s', sb)
  {
    hide Inv, Go, Tame, NobodyGets;
    if PcOf(s, t).Getting() {
      GetTame(s, t, choice, s');
    } else if PcOf(s, t).Unmounting() {
      UnmountTame(s, t, choice, s');
    } else {
      NotIdle(s, t, choice, s');
      PutTame(s, t, choice, s');
    }
    TameKeeps(s, s', t, sb);
  }

  lemma NewInodeCalm(s: State, i: Inode, its: Sb, s': State, sb: Sb)
    requires Inv(s) && NewInode(s, i, its, s') && NobodyGets(s, sb)
    ensures NobodyGets(s', sb)
  {
    hide Inv;
    forall k: Thread | PcOf(s', k).Getting() && PcOf(s', k).inode in s'.inos ensures s'.inos[PcOf(s', k).inode].sb != sb {
      GetsThere(s, k);
      assert PcOf(s', k) == PcOf(s, k);
    }
  }

  lemma StepKeepsCalm(s: State, a: Action, s': State, sb: Sb)
    requires Inv(s) && Step(s, a, s') && NobodyGets(s, sb)
    requires a.AStartGet? && a.i in s.inos ==> s.inos[a.i].sb != sb
    ensures NobodyGets(s', sb)
  {
    hide Inv, Go;
    match a
    case AGo(t, choice) => GoKeepsCalm(s, t, choice, s', sb);
    case ANewInode(i, its) => NewInodeCalm(s, i, its, s', sb);
    case AStartUnmount(t, other) => OtherUnmountCalm(s, t, other, s', sb);
    case AStartGet(t, i) => OtherGetCalm(s, t, i, s', sb);
    case AStartPut(t, o, key) => assert forall k: Thread :: k != t ==> PcOf(s', k) == PcOf(s, k);
    case _ => assert forall k: Thread :: PcOf(s', k) == PcOf(s, k);
  }

  lemma OtherUnmountCalm(s: State, t: Thread, other: Sb, s': State, sb: Sb)
    requires StartUnmount(s, t, other, s') && NobodyGets(s, sb)
    ensures NobodyGets(s', sb)
  {
    if other == sb {
      UnmountStartsCalm(s, t, sb, s');
    } else {
      assert forall k: Thread :: k != t ==> PcOf(s', k) == PcOf(s, k);
    }
  }

  lemma OtherGetCalm(s: State, t: Thread, i: Inode, s': State, sb: Sb)
    requires StartGet(s, t, i, s') && NobodyGets(s, sb) && s.inos[i].sb != sb
    ensures NobodyGets(s', sb)
  {
    assert forall k: Thread :: k != t ==> PcOf(s', k) == PcOf(s, k);
  }

  /** When hook_sb_delete is called while nobody gets objects, that is what `loud` says. */
  lemma UnmountStartsCalm(s: State, t: Thread, sb: Sb, s': State)
    requires StartUnmount(s, t, sb, s')
    requires forall k: Thread :: PcOf(s, k).Getting() && PcOf(s, k).inode in s.inos ==> s.inos[PcOf(s, k).inode].sb != sb
    ensures NobodyGets(s', sb)
  {
    forall k <- s.pcs | s.pcs[k].Getting() && s.pcs[k].inode in s.inos ensures s.inos[s.pcs[k].inode].sb != sb {
      assert PcOf(s, k) == s.pcs[k];
    }
  }

  /**
   Over a whole run: if nobody is at get_inode_object on the superblock when hook_sb_delete is called, and nobody calls
   it until it returns, then nothing of the superblock is tied when it returns, and no release of it is under way.
   */
  lemma {:induction false} UnmountAlone(states: seq<State>, actions: seq<Action>, n: nat, m: nat, t: Thread, w: Unmount)
    requires Run(states, actions) && n < m < |actions| && actions[n] == AStartUnmount(t, w.sb)
    requires forall k: Thread :: PcOf(states[n], k).Getting() && PcOf(states[n], k).inode in states[n].inos ==>
      states[n].inos[PcOf(states[n], k).inode].sb != w.sb
    requires forall j :: n < j < m && actions[j].AStartGet? && actions[j].i in states[j].inos ==> states[j].inos[actions[j].i].sb != w.sb
    requires WaitStep(states[m], t, w, states[m + 1])
    ensures Released(states[m], w.sb)
  {
    Always(states, actions, m);
    StaysCalm(states, actions, n, m, t, w.sb);
    UnmountReleases(states[m], t, w, states[m + 1]);
  }

  lemma {:induction false} StaysCalm(states: seq<State>, actions: seq<Action>, n: nat, m: nat, t: Thread, sb: Sb)
    requires Run(states, actions) && n < m < |states| && actions[n] == AStartUnmount(t, sb)
    requires forall k: Thread :: PcOf(states[n], k).Getting() && PcOf(states[n], k).inode in states[n].inos ==>
      states[n].inos[PcOf(states[n], k).inode].sb != sb
    requires forall j :: n < j < m && actions[j].AStartGet? && actions[j].i in states[j].inos ==> states[j].inos[actions[j].i].sb != sb
    ensures NobodyGets(states[m], sb)
  {
    hide Inv, Init;
    if m == n + 1 {
      UnmountStartsCalm(states[n], t, sb, states[m]);
    } else {
      hide NobodyGets, Step;
      StaysCalm(states, actions, n, m - 1, t, sb);
      Always(states, actions, m - 1);
      StepKeepsCalm(states[m - 1], actions[m - 1], states[m], sb);
    }
  }
}
