/**
 Which Lua states hold a module, and whose they are; what unregister can rely on about them while others run.
 */
module LuaHolders {
  import opened Basics
  import opened LuaState
  import opened LuaExit

  /** What unregister looks at while others change it. */
  datatype View = View(modules: Modules, hooks: map<Reader, Hook>, next: Reader, exits: Exits, lua: Loaded, tasks: map<Task, Lvm>)

  predicate Holds(lua: Loaded, vm: Vm, n: Name)
  {
    vm in lua && n in lua[vm]
  }

  /** The task's own Lua state holds the module. */
  predicate TaskHolds(v: View, t: Task, n: Name)
  {
    t in v.tasks && v.tasks[t].vm.Some? && Holds(v.lua, v.tasks[t].vm.value, n)
  }

  predicate IsEmpty(lua: Loaded, vm: Vm)
  {
    vm in lua ==> lua[vm] == {}
  }

  // ---------------------------------------------------------------- whose a Lua state is

  ghost predicate Owned(tasks: map<Task, Lvm>, exiting: set<Vm>, irqVms: set<Vm>, vm: Vm)
  {
    vm in irqVms || vm in exiting || exists t <- tasks :: tasks[t].vm == Some(vm)
  }

  /** A Lua state that holds a module is a CPU's, a task's, or an exiting task's. */
  ghost predicate OwnersOk(lua: Loaded, tasks: map<Task, Lvm>, exiting: set<Vm>, irqVms: set<Vm>)
  {
    forall vm <- lua :: lua[vm] != {} ==> Owned(tasks, exiting, irqVms, vm)
  }

  /** Owners stay owners, but for exiting tasks and for Lua states without modules. */
  lemma OwnersBy(a: View, b: View, irqVms: set<Vm>)
    requires OwnersOk(a.lua, a.tasks, a.exits.Keys, irqVms)
    requires forall vm <- b.lua :: b.lua[vm] == {} || (vm in a.lua && a.lua[vm] != {}) || Owned(b.tasks, b.exits.Keys, irqVms, vm)
    requires forall t <- a.tasks ::
      a.tasks[t].vm.None? || (t in b.tasks && b.tasks[t].vm == a.tasks[t].vm) || a.tasks[t].vm.value in b.exits || IsEmpty(b.lua, a.tasks[t].vm.value)
    requires forall vm <- a.exits :: vm in b.exits || IsEmpty(b.lua, vm)
    ensures OwnersOk(b.lua, b.tasks, b.exits.Keys, irqVms)
  {
    forall vm <- b.lua | b.lua[vm] != {} ensures Owned(b.tasks, b.exits.Keys, irqVms, vm) {
      if vm in a.lua && a.lua[vm] != {} {
        assert Owned(a.tasks, a.exits.Keys, irqVms, vm);
        if vm !in irqVms && vm !in a.exits {
          var t :| t in a.tasks && a.tasks[t].vm == Some(vm);
          assert vm in b.exits || (t in b.tasks && b.tasks[t].vm == Some(vm));
        }
      }
    }
  }

  /** The owner of a Lua state that holds `n`. */
  lemma HolderOwned(v: View, irqVms: set<Vm>, vm: Vm, n: Name)
    requires OwnersOk(v.lua, v.tasks, v.exits.Keys, irqVms) && Holds(v.lua, vm, n)
    ensures vm in irqVms || vm in v.exits || exists t :: TaskHolds(v, t, n) && v.tasks[t].vm == Some(vm)
  {
    assert Owned(v.tasks, v.exits.Keys, irqVms, vm);
    if vm !in irqVms && vm !in v.exits {
      var t :| t in v.tasks && v.tasks[t].vm == Some(vm);
      assert TaskHolds(v, t, n);
    }
  }

  // ---------------------------------------------------------------- what others may do meanwhile

  /** A module that no hook can load gets into no table any more, and no task gets a Lua state that holds it. */
  ghost predicate Dwindles(a: View, b: View, quiet: set<Name>)
  {
    && (forall vm: Vm, n: Name :: n in quiet && Holds(b.lua, vm, n) ==> Holds(a.lua, vm, n))
    && (forall t: Task, n: Name :: n in quiet && TaskHolds(b, t, n) ==> TaskHolds(a, t, n))
  }

  lemma DwindlesBy(a: View, b: View, quiet: set<Name>)
    requires forall vm <- b.lua :: b.lua[vm] == {} || (vm in a.lua && b.lua[vm] * quiet <= a.lua[vm])
    requires forall t <- b.tasks ::
      b.tasks[t].vm.None? || (t in a.tasks && b.tasks[t].vm == a.tasks[t].vm) || IsEmpty(b.lua, b.tasks[t].vm.value)
    ensures Dwindles(a, b, quiet)
  {
    forall vm: Vm, n: Name | n in quiet && Holds(b.lua, vm, n) ensures Holds(a.lua, vm, n) {
      assert n in b.lua[vm] * quiet;
    }
  }

  /**
   Same modules, and those that no hook can load are not loaded any more often, and dwindle; new hooks have new
   numbers, and have not picked the module that is leaving; no walk has met the module that is gone.
   */
  ghost predicate Stable(a: View, b: View, quiet: set<Name>, leaving: Option<Name>, gone: Option<Name>)
  {
    && Rely(a.modules, b.modules, quiet) && Dwindles(a, b, quiet)
    && a.next <= b.next && (forall r <- b.hooks :: r in a.hooks || r >= a.next)
    && NotPicked(a.hooks, b.hooks, leaving) && NotMet(a.exits, b.exits, gone)
  }

  lemma StableRefl(a: View, quiet: set<Name>, leaving: Option<Name>, gone: Option<Name>)
    ensures Stable(a, a, quiet, leaving, gone)
  {
  }

  lemma StableTrans(a: View, b: View, c: View, quiet: set<Name>, leaving: Option<Name>, gone: Option<Name>)
    requires Stable(a, b, quiet, leaving, gone) && Stable(b, c, quiet, leaving, gone)
    ensures Stable(a, c, quiet, leaving, gone)
  {
    RelyTrans(a.modules, b.modules, c.modules, quiet);
  }

  /** A step that leaves the hooks alone. */
  lemma StableBy(a: View, b: View, quiet: set<Name>, leaving: Option<Name>, gone: Option<Name>)
    requires Rely(a.modules, b.modules, quiet) && b.hooks == a.hooks && b.next == a.next && NotMet(a.exits, b.exits, gone)
    requires forall vm <- b.lua :: b.lua[vm] == {} || (vm in a.lua && b.lua[vm] * quiet <= a.lua[vm])
    requires forall t <- b.tasks ::
      b.tasks[t].vm.None? || (t in a.tasks && b.tasks[t].vm == a.tasks[t].vm) || IsEmpty(b.lua, b.tasks[t].vm.value)
    ensures Stable(a, b, quiet, leaving, gone)
  {
    DwindlesBy(a, b, quiet);
  }

  /** A task that keeps its Lua state, or gets one that holds nothing. */
  lemma TaskSet(a: View, t: Task, l: Lvm, irqVms: set<Vm>, quiet: set<Name>, leaving: Option<Name>, gone: Option<Name>)
    requires OwnersOk(a.lua, a.tasks, a.exits.Keys, irqVms)
    requires var was := if t in a.tasks then a.tasks[t].vm else None;
             l.vm == was || (was.None? && IsEmpty(a.lua, l.vm.value))
    ensures var b := a.(tasks := a.tasks[t := l]);
            Stable(a, b, quiet, leaving, gone) && OwnersOk(b.lua, b.tasks, b.exits.Keys, irqVms)
  {
    var b := a.(tasks := a.tasks[t := l]);
    RelyRefl(a.modules, quiet);
    OwnersBy(a, b, irqVms);
    StableBy(a, b, quiet, leaving, gone);
  }

  /** A module leaves one Lua state. */
  lemma LuaLess(a: View, modules: Modules, vm: Vm, n: Name, exits: Exits, irqVms: set<Vm>, quiet: set<Name>, leaving: Option<Name>, gone: Option<Name>)
    requires OwnersOk(a.lua, a.tasks, a.exits.Keys, irqVms) && vm in a.lua && exits.Keys == a.exits.Keys
    requires Rely(a.modules, modules, quiet) && NotMet(a.exits, exits, gone)
    ensures var b := a.(modules := modules, lua := a.lua[vm := a.lua[vm] - {n}], exits := exits);
            Stable(a, b, quiet, leaving, gone) && OwnersOk(b.lua, b.tasks, b.exits.Keys, irqVms)
  {
    var b := a.(modules := modules, lua := a.lua[vm := a.lua[vm] - {n}], exits := exits);
    OwnersBy(a, b, irqVms);
    StableBy(a, b, quiet, leaving, gone);
  }

  /** A walk takes a module off that is not the one that is gone. */
  lemma NotMetTaken(exits: Exits, vm: Vm, e: Exit, n: Name, gone: Option<Name>)
    requires vm in exits && e.off <= exits[vm].off + {n} && gone != Some(n)
    ensures NotMet(exits, exits[vm := e], gone)
  {
  }

  /** A hook starts. */
  lemma StableStart(a: View, b: View, h: Hook, quiet: set<Name>, leaving: Option<Name>, gone: Option<Name>)
    requires Stable(a, b, quiet, leaving, gone) && h.picked == None
    ensures Stable(a, b.(hooks := b.hooks[b.next := h], next := b.next + 1), quiet, leaving, gone)
  {
  }

  /** A hook comes to a module that is not leaving. */
  lemma StablePick(a: View, r: Reader, n: Name, quiet: set<Name>, leaving: Option<Name>, gone: Option<Name>)
    requires r in a.hooks && leaving != Some(n)
    ensures Stable(a, a.(hooks := a.hooks[r := a.hooks[r].(picked := Some(n))]), quiet, leaving, gone)
  {
  }

  /** A hook ends. */
  lemma StableEnd(a: View, b: View, r: Reader, quiet: set<Name>, leaving: Option<Name>, gone: Option<Name>)
    requires Stable(a, b, quiet, leaving, gone)
    ensures Stable(a, b.(hooks := b.hooks - {r}), quiet, leaving, gone)
  {
  }

  lemma StableParts(a: View, b: View, quiet: set<Name>, leaving: Option<Name>, gone: Option<Name>)
    requires Stable(a, b, quiet, leaving, gone)
    ensures a.next <= b.next && (forall r <- b.hooks :: r in a.hooks || r >= a.next)
    ensures NotPicked(a.hooks, b.hooks, leaving) && NotMet(a.exits, b.exits, gone)
  {
  }

  lemma StableRely(a: View, b: View, quiet: set<Name>, leaving: Option<Name>, gone: Option<Name>)
    requires Stable(a, b, quiet, leaving, gone)
    ensures Rely(a.modules, b.modules, quiet)
  {
  }

  lemma StableHolds(a: View, b: View, quiet: set<Name>, leaving: Option<Name>, gone: Option<Name>, n: Name)
    requires Stable(a, b, quiet, leaving, gone) && n in quiet
    ensures forall vm: Vm :: Holds(b.lua, vm, n) ==> Holds(a.lua, vm, n)
    ensures forall t: Task :: TaskHolds(b, t, n) ==> TaskHolds(a, t, n)
    ensures Holders(a.lua, n) == {} ==> Holders(b.lua, n) == {}
  {
    forall vm | vm in Holders(b.lua, n) ensures vm in Holders(a.lua, n) {
      assert Holds(b.lua, vm, n);
    }
  }

  // ---------------------------------------------------------------- which tasks may be busy

  /** Only tasks of `lively` ever run on another CPU, or run a hook. */
  ghost predicate CalmOk(tasks: map<Task, Lvm>, running: set<Task>, lively: Task -> bool)
  {
    && (forall t <- running :: lively(t))
    && (forall t <- tasks :: tasks[t].refcount > 0 ==> lively(t))
  }

  lemma CalmSet(tasks: map<Task, Lvm>, running: set<Task>, lively: Task -> bool, t: Task, l: Lvm)
    requires CalmOk(tasks, running, lively) && (l.refcount > 0 ==> lively(t))
    ensures CalmOk(tasks[t := l], running, lively)
  {
  }

  lemma CalmLess(tasks: map<Task, Lvm>, running: set<Task>, lively: Task -> bool, t: Task)
    requires CalmOk(tasks, running, lively)
    ensures CalmOk(tasks - {t}, running, lively)
  {
  }

  /** New Lua states get new numbers. */
  ghost predicate FreshOk(lua: Loaded, nextVm: Vm)
  {
    forall vm <- lua :: vm < nextVm
  }

  lemma FreshSet(lua: Loaded, vm: Vm, held: set<Name>, nextVm: Vm)
    requires FreshOk(lua, nextVm) && vm in lua
    ensures FreshOk(lua[vm := held], nextVm)
  {
  }

  /** Only lively tasks, or idle ones, still hold the module. */
  ghost predicate OnlyLively(v: View, idle: set<Task>, lively: Task -> bool, n: Name)
  {
    forall t: Task :: TaskHolds(v, t, n) ==> lively(t) || t in idle
  }

  /** No task holds the module, unless it is idle. */
  ghost predicate NoTaskHolds(v: View, idle: set<Task>, n: Name)
  {
    forall t: Task :: TaskHolds(v, t, n) ==> t in idle
  }

  ghost predicate NoIrqHolds(v: View, irqVms: set<Vm>, n: Name)
  {
    forall vm <- irqVms :: !Holds(v.lua, vm, n)
  }

  /** No idle task holds the module, unless it is lively. */
  ghost predicate IdleRid(v: View, idle: set<Task>, lively: Task -> bool, n: Name)
  {
    forall t: Task :: t in idle && TaskHolds(v, t, n) ==> lively(t)
  }

  /** All this remains true while others run. */
  lemma RidKept(a: View, b: View, irqVms: set<Vm>, idle: set<Task>, lively: Task -> bool, n: Name,
                quiet: set<Name>, leaving: Option<Name>, gone: Option<Name>)
    requires Stable(a, b, quiet, leaving, gone) && n in quiet
    ensures OnlyLively(a, idle, lively, n) ==> OnlyLively(b, idle, lively, n)
    ensures NoTaskHolds(a, idle, n) ==> NoTaskHolds(b, idle, n)
    ensures NoIrqHolds(a, irqVms, n) ==> NoIrqHolds(b, irqVms, n)
    ensures IdleRid(a, idle, lively, n) ==> IdleRid(b, idle, lively, n)
    ensures Holders(a.lua, n) == {} ==> Holders(b.lua, n) == {}
  {
    StableHolds(a, b, quiet, leaving, gone, n);
  }

  /** When nobody holds the module, neither does any of them. */
  lemma AllRid(v: View, irqVms: set<Vm>, idle: set<Task>, lively: Task -> bool, n: Name)
    requires Holders(v.lua, n) == {}
    ensures OnlyLively(v, idle, lively, n) && NoTaskHolds(v, idle, n) && NoIrqHolds(v, irqVms, n) && IdleRid(v, idle, lively, n)
  {
    forall vm: Vm ensures !Holds(v.lua, vm, n) {
      assert vm !in Holders(v.lua, n);
    }
  }

  /** Whoever still holds the module is exiting, or is a lively task. */
  lemma WhoHolds(v: View, irqVms: set<Vm>, idle: set<Task>, lively: Task -> bool, n: Name)
    requires OwnersOk(v.lua, v.tasks, v.exits.Keys, irqVms) && OnlyLively(v, idle, lively, n) && NoIrqHolds(v, irqVms, n) && IdleRid(v, idle, lively, n)
    ensures forall vm <- Holders(v.lua, n) :: vm !in irqVms && (vm in v.exits || exists t :: lively(t) && TaskHolds(v, t, n) && v.tasks[t].vm == Some(vm))
  {
    forall vm <- Holders(v.lua, n)
      ensures vm !in irqVms && (vm in v.exits || exists t :: lively(t) && TaskHolds(v, t, n) && v.tasks[t].vm == Some(vm))
    {
      assert Holds(v.lua, vm, n);
      HolderOwned(v, irqVms, vm, n);
    }
  }
}
