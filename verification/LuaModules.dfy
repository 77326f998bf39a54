/**
 Registering, loading and unregistering Lua modules, while hooks run and tasks come and go: lsm.c.

 Registering and unregistering hold modules_mutex, and hooks do not take it: between any two of their
 stores `Interfere` lets the other threads take any number of steps.
 */
module LuaModules {
  import opened Basics
  import opened LuaState
  import opened LuaBoard
  import opened LuaExit
  import opened LuaHolders

  datatype Errno = OK | ENOENT | EEXIST | EBUSY | EAGAIN | ENOMEM

  class Lsm {
    var modules: Modules
    /** Every Lua state, and the modules in its _MODULES table, but for those that `exits` says it has taken off already. */
    var lua: Loaded
    /** The Lua states of exiting tasks. */
    var exits: Exits
    var tasks: map<Task, Lvm>
    var irqVms: set<Vm>
    var pool: seq<Vm>
    var poolMax: nat
    var nhooks: map<nat, int>
    var active: int
    /** How many registrations have been completed; it only tells them apart. */
    var done: nat
    /** The hooks that are running, each under srcu_read_lock. */
    var hooks: map<Reader, Hook>
    var nextReader: Reader
    var nextVm: Vm
    /** The tasks that run on other CPUs than that of the task that unregisters. */
    var running: set<Task>
    /** The idle tasks, which are on no list of tasks. */
    const idle: set<Task>

    /** The module that is being unregistered, how often it has been removed from a Lua state, and what no hook can load any more. */
    ghost var leaving: Option<Name>
    ghost var removed: nat
    ghost var quiet: set<Name>
    /** The module that is off the list, but not freed yet. */
    ghost var gone: Option<Name>
    /** All that hooks could see so far. */
    ghost var history: seq<Board>
    /** How often tasks_lvm_remove_module has been called. */
    ghost var rounds: nat
    /** The tasks that run, or run hooks, at any time; any set. */
    const lively: Task -> bool

    ghost predicate Inv()
      reads this
    {
      && NamesDistinct(modules)
      && Shows(history, modules, nhooks, active, done)
      && LoadedExact(modules, lua, leaving, removed)
      && VmsOk(lua, tasks, irqVms, pool, exits.Keys) && ExitsOk(modules, lua, exits, gone)
      && HooksOk(hooks, nextReader, tasks, irqVms, modules, quiet)
      && QuietOk(modules, quiet, leaving) && OwnersOk(lua, tasks, exits.Keys, irqVms) && CalmOk(tasks, running, lively)
      && FreshOk(lua, nextVm) && |pool| <= poolMax
    }

    /** Nobody holds modules_mutex. */
    ghost predicate Unlocked()
      reads this
    {
      Inv() && leaving == None && gone == None && Now(history).ahead == SETTLED
    }

    ghost function Seen(): View
      reads this
    {
      View(modules, hooks, nextReader, exits, lua, tasks)
    }

    /** What the holder of modules_mutex can rely on while others run. */
    twostate predicate Undisturbed()
      reads this
    {
      && Inv() && Stable(old(Seen()), Seen(), quiet, leaving, gone)
      && leaving == old(leaving) && quiet == old(quiet) && gone == old(gone) && irqVms == old(irqVms) && history == old(history)
    }

    /** Every CPU has a Lua state for its softirqs from the start. */
    constructor (irqVms: set<Vm>, nextVm: Vm, poolMax: nat, idle: set<Task>, lively: Task -> bool)
      requires forall vm <- irqVms :: vm < nextVm
      ensures Unlocked() && modules == []
    {
      hide Shows, LoadedExact, VmsOk, ExitsOk, HooksOk, QuietOk, NamesDistinct, OwnersOk, CalmOk;
      this.irqVms, this.nextVm, this.poolMax, this.idle, this.lively := irqVms, nextVm, poolMax, idle, lively;
      running, rounds := {}, 0;
      modules, tasks, pool, exits, nhooks, active, done, hooks, nextReader := [], map[], [], map[], map[], 0, 0, map[], 0;
      leaving, removed, quiet, gone, history := None, 0, {}, None, [Board([], map[], 0, SETTLED, 0)];
      lua := map vm | vm in irqVms :: {};
      new;
      NothingLoaded(lua, irqVms);
      NothingHeld(View([], map[], 0, map[], lua, map[]), irqVms, lively);
      assert exits.Keys == {};
      NothingShown(history);
    }

    // -------------------------------------------------------------- tasks and their Lua states

    /** The scheduler: other tasks run. */
    method Schedule(now: set<Task>)
      requires Inv() && forall t <- now :: lively(t)
      modifies `running
      ensures Undisturbed() && running == now
    {
      hide Shows, LoadedExact, VmsOk, ExitsOk, HooksOk, QuietOk, NamesDistinct, Stable, OwnersOk, FreshOk;
      StableRefl(Seen(), quiet, leaving, gone);
      running := now;
    }

    /** task_blob_init; `memory` is whether kzalloc finds memory. */
    method TaskInit(t: Task, memory: bool) returns (err: Errno)
      requires Inv() && t !in tasks
      modifies `tasks
      ensures Undisturbed()
      ensures err == if memory then OK else ENOMEM
      ensures tasks == if memory then old(tasks)[t := Lvm(None, 0, false)] else old(tasks)
    {
      hide Shows, LoadedExact, VmsOk, ExitsOk, HooksOk, QuietOk, NamesDistinct, Stable, Rely, OwnersOk, FreshOk, CalmOk;
      StableRefl(Seen(), quiet, leaving, gone);
      InitKeeps(lua, tasks, irqVms, pool, exits.Keys, hooks, nextReader, modules, quiet, t);
      if !memory {
        return ENOMEM;
      }
      CalmSet(tasks, running, lively, t, Lvm(None, 0, false));
      TaskSet(Seen(), t, Lvm(None, 0, false), irqVms, quiet, leaving, gone);
      tasks := tasks[t := Lvm(None, 0, false)];
      return OK;
    }

    /** lvm_pool_get, or lvm_build_lua_state when the pool is empty, if there is memory. */
    method GetLua(memory: bool) returns (vm: Option<Vm>)
      requires Inv()
      modifies `pool, `lua, `nextVm
      ensures Undisturbed()
      ensures vm.Some? <==> old(pool) != [] || memory
      ensures vm.Some? ==> IsFree(lua, tasks, irqVms, pool, exits.Keys, vm.value)
      ensures pool == if old(pool) == [] then [] else old(pool)[1..]
    {
      hide Shows, LoadedExact, VmsOk, ExitsOk, HooksOk, QuietOk, NamesDistinct, Stable, Rely, OwnersOk, CalmOk;
      StableRefl(Seen(), quiet, leaving, gone);
      if pool != [] {
        vm := Some(pool[0]);
        TakeVms(lua, tasks, irqVms, pool, exits.Keys);
        pool := pool[1..];
      } else if !memory {
        vm := None;
      } else {
        vm := Some(nextVm);
        ghost var was := Seen();
        EmptyKeepsExact(modules, lua, nextVm, leaving, removed);
        NewVms(lua, tasks, irqVms, pool, exits.Keys, nextVm);
        LuaExits(modules, lua, lua[nextVm := {}], exits, gone);
        lua, nextVm := lua[nextVm := {}], nextVm + 1;
        RelyRefl(modules, quiet);
        StableBy(was, Seen(), quiet, leaving, gone);
        OwnersBy(was, Seen(), irqVms);
      }
    }

    /** A hook starts in a task with the Lua state of `l`, which is the task's own, or free. */
    method Begin(t: Task, l: Lvm) returns (r: Reader)
      requires Inv() && t in tasks && lively(t) && tasks[t].refcount == 0 && l.vm.Some? && l.refcount == 1
      requires l == tasks[t].(refcount := 1) || (IsFree(lua, tasks, irqVms, pool, exits.Keys, l.vm.value) && tasks[t].vm.None?)
      modifies `tasks, `hooks, `nextReader
      ensures Undisturbed() && r !in old(hooks) && hooks == old(hooks)[r := Hook(l.vm.value, Some(t), None)]
      ensures tasks == old(tasks)[t := l] && (old(tasks)[t].vm.None? ==> l.vm.value in lua && lua[l.vm.value] == {})
    {
      hide Shows, LoadedExact, VmsOk, ExitsOk, HooksOk, QuietOk, Stable, NamesDistinct, Rely, OwnersOk, FreshOk, CalmOk, IsEmpty, TaskOk;
      StartKeeps(lua, tasks, irqVms, pool, exits.Keys, hooks, nextReader, modules, quiet, t, l);
      FreeEmpty(lua, tasks, irqVms, pool, exits.Keys, t, l);
      hide IsFree;
      ghost var was := Seen();
      CalmSet(tasks, running, lively, t, l);
      TaskSet(was, t, l, irqVms, quiet, leaving, gone);
      tasks := tasks[t := l];
      r := nextReader;
      StableStart(was, Seen(), Hook(l.vm.value, Some(t), None), quiet, leaving, gone);
      hooks, nextReader := hooks[r := Hook(l.vm.value, Some(t), None)], nextReader + 1;
    }

    /** lvm_get in a task, at the start of a hook: the task gets a Lua state when it needs one for the first time. */
    method StartInTask(t: Task, memory: bool) returns (r: Option<Reader>)
      requires Inv() && t in tasks && lively(t) && tasks[t].refcount == 0
      modifies `tasks, `pool, `lua, `nextVm, `hooks, `nextReader
      ensures Undisturbed()
      ensures r.Some? <==> old(tasks)[t].vm.Some? || old(pool) != [] || memory
      ensures r.Some? ==> r.value !in old(hooks) && r.value in hooks && hooks[r.value].task == Some(t) && hooks[r.value].picked == None
      ensures r.Some? ==> t in tasks && tasks[t].vm == Some(hooks[r.value].vm) && (old(tasks)[t].vm.Some? ==> tasks[t].vm == old(tasks)[t].vm)
      ensures r.Some? && old(tasks)[t].vm.None? ==> hooks[r.value].vm in lua && lua[hooks[r.value].vm] == {}
      ensures r.None? ==> tasks == old(tasks) && hooks == old(hooks)
    {
      hide Shows, LoadedExact, VmsOk, ExitsOk, HooksOk, QuietOk, Stable, NamesDistinct, IsFree, OwnersOk, FreshOk, CalmOk;
      var l := tasks[t];
      StableRefl(Seen(), quiet, leaving, gone);
      if l.vm.None? {
        var got := GetLua(memory);
        if got.None? {
          return None;
        }
        l := Lvm(got, 0, l.dirty);
      }
      ghost var was := Seen();
      var begun := Begin(t, l.(refcount := 1));
      StableTrans(old(Seen()), was, Seen(), quiet, leaving, gone);
      r := Some(begun);
    }

    /** lvm_get in a softirq */
    method StartInSoftirq(vm: Vm) returns (r: Reader)
      requires Inv() && vm in irqVms
      modifies `hooks, `nextReader
      ensures Undisturbed()
      ensures r !in old(hooks) && hooks == old(hooks)[r := Hook(vm, None, None)]
    {
      hide Shows, LoadedExact, VmsOk, ExitsOk, QuietOk, NamesDistinct, Stable, OwnersOk, FreshOk, CalmOk;
      StableRefl(Seen(), quiet, leaving, gone);
      StableStart(Seen(), Seen(), Hook(vm, None, None), quiet, leaving, gone);
      ghost var was := Seen();
      r := nextReader;
      hooks, nextReader := hooks[r := Hook(vm, None, None)], nextReader + 1;
    }

    /** The dispatcher comes to the module at `k`. */
    method Pick(r: Reader, k: nat) returns (live: bool)
      requires Inv() && r in hooks && k < |modules|
      modifies `hooks
      ensures Undisturbed()
      ensures live <==> modules[k].life == Live
      ensures hooks == if live then old(hooks)[r := old(hooks)[r].(picked := Some(modules[k].name))] else old(hooks)
    {
      hide Shows, LoadedExact, VmsOk, ExitsOk, Stable, OwnersOk, FreshOk, CalmOk;
      StableRefl(Seen(), quiet, leaving, gone);
      live := modules[k].life == Live;
      if live {
        IsRegistered(modules, k);
        StablePick(Seen(), r, modules[k].name, quiet, leaving, gone);
        ghost var was := Seen();
        hooks := hooks[r := hooks[r].(picked := Some(modules[k].name))];
      }
    }

    method Find(n: Name) returns (k: nat)
      ensures k <= |modules| && (k < |modules| <==> Registered(modules, n)) && (k < |modules| ==> modules[k].name == n)
    {
      k := 0;
      while k < |modules| && modules[k].name != n
        invariant k <= |modules| && forall i: nat :: i < k ==> !IsAt(modules, i, n)
      {
        k := k + 1;
      }
      if k < |modules| {
        IsRegistered(modules, k);
      }
    }

    /** The module's chunk has run: its table goes to _MODULES. */
    method Loads(vm: Vm, n: Name)
      requires Inv() && vm in lua && n !in lua[vm] && Registered(modules, n) && n !in quiet && Owned(tasks, exits.Keys, irqVms, vm)
      requires VmsOk(lua[vm := lua[vm] + {n}], tasks, irqVms, pool, exits.Keys) && vm !in exits
      modifies `lua, `modules
      ensures Undisturbed() && lua == old(lua)[vm := old(lua)[vm] + {n}]
    {
      hide Shows, LoadedExact, VmsOk, ExitsOk, HooksOk, QuietOk, NamesDistinct, Rely, Stable, OwnersOk, FreshOk, CalmOk, Owned;
      var k := Find(n);
      FreshSet(lua, vm, lua[vm] + {n}, nextVm);
      ghost var was := Seen();
      LoadKeepsExact(modules, k, lua, vm, leaving, removed);
      RelyLoad(modules, k, quiet);
      RelyKeeps(modules, WithLoaded(modules, k, 1), quiet, leaving, history, nhooks, active, done, hooks, nextReader, tasks, irqVms);
      SameExits(modules, WithLoaded(modules, k, 1), lua, exits, gone);
      LuaExits(WithLoaded(modules, k, 1), lua, lua[vm := lua[vm] + {n}], exits, gone);
      lua := lua[vm := lua[vm] + {n}];
      modules := modules[k := modules[k].(nloaded := modules[k].nloaded + 1)];
      StableBy(was, Seen(), quiet, leaving, gone);
      OwnersBy(was, Seen(), irqVms);
    }

    /** lvm_mark_dirty */
    method MarkDirty(t: Task, vm: Vm)
      requires Inv() && t in tasks && Owned(tasks, exits.Keys, irqVms, vm)
      requires var tasks' := tasks[t := tasks[t].(dirty := true)];
               VmsOk(lua, tasks', irqVms, pool, exits.Keys) && HooksOk(hooks, nextReader, tasks', irqVms, modules, quiet)
      modifies `tasks
      ensures Undisturbed() && tasks == old(tasks)[t := old(tasks)[t].(dirty := true)] && Owned(tasks, exits.Keys, irqVms, vm)
    {
      hide Shows, LoadedExact, VmsOk, ExitsOk, HooksOk, QuietOk, Stable, NamesDistinct, Rely, OwnersOk, FreshOk, Owned, CalmOk;
      var l := tasks[t].(dirty := true);
      CalmDirty(tasks, running, lively, t);
      TaskSet(Seen(), t, l, irqVms, quiet, leaving, gone);
      StillOwned(tasks, tasks[t := l], exits.Keys, irqVms, vm);
      tasks := tasks[t := l];
    }

    /**
     The lookup of the module's table, which calls lua_modules_index when the Lua state does not hold it.
     Running the module's chunk may fail: `runs` is whether it does not.
     */
    method Load(r: Reader, runs: bool)
      requires Inv() && r in hooks && hooks[r].picked.Some?
      modifies `tasks, `lua, `modules
      ensures Undisturbed()
      ensures hooks[r].vm in lua && hooks[r].vm in old(lua)
      ensures var vm, n := hooks[r].vm, hooks[r].picked.value;
              if n !in old(lua)[vm] && runs then lua == old(lua)[vm := old(lua)[vm] + {n}] else lua == old(lua) && modules == old(modules)
    {
      hide Shows, LoadedExact, VmsOk, ExitsOk, HooksOk, QuietOk, Stable, NamesDistinct, Rely, OwnersOk, FreshOk, Owned;
      var h := hooks[r];
      var n := h.picked.value;
      LoadVms(lua, tasks, irqVms, pool, exits.Keys, hooks, nextReader, modules, quiet, r, n);
      PickedLoadable(hooks, nextReader, tasks, irqVms, modules, quiet, r);
      HookOwns(hooks, nextReader, tasks, exits.Keys, irqVms, modules, quiet, r);
      StableRefl(Seen(), quiet, leaving, gone);
      if n !in lua[h.vm] {
        if h.task.Some? {
          MarkDirty(h.task.value, h.vm);
        }
        if runs {
          ghost var was := Seen();
          Loads(h.vm, n);
          StableTrans(old(Seen()), was, Seen(), quiet, leaving, gone);
        }
      }
    }

    /** lvm_put, at the end of a hook. */
    method EndHook(r: Reader)
      requires Inv() && r in hooks
      modifies `tasks, `hooks
      ensures Undisturbed() && hooks == old(hooks) - {r}
    {
      hide Shows, LoadedExact, VmsOk, ExitsOk, HooksOk, QuietOk, Stable, NamesDistinct, Rely, OwnersOk, FreshOk, CalmOk;
      EndKeeps(lua, tasks, irqVms, pool, exits.Keys, hooks, nextReader, modules, quiet, r);
      ghost var was := Seen();
      StableRefl(was, quiet, leaving, gone);
      if hooks[r].task.Some? {
        var t := hooks[r].task.value;
        var l := tasks[t].(refcount := tasks[t].refcount - 1);
        assert l == tasks[t].(refcount := 0);
        Released(was, running, lively, t, l, r, irqVms, quiet, leaving, gone);
        tasks := tasks[t := l];
      } else {
        StableEnd(was, was, r, quiet, leaving, gone);
      }
      hooks := hooks - {r};
    }

    /** task_blob_free: the Lua state of the task, if it has been used, is to give up its modules first. */
    method TaskExit(t: Task)
      requires Inv() && t in tasks && tasks[t].refcount == 0
      modifies `tasks, `lua, `pool, `exits
      ensures Undisturbed() && tasks == old(tasks) - {t}
      ensures old(tasks)[t].vm.None? ==> pool == old(pool) && lua == old(lua) && exits == old(exits)
      ensures old(tasks)[t].vm.Some? && old(tasks)[t].dirty ==>
        pool == old(pool) && lua == old(lua) && exits == old(exits)[old(tasks)[t].vm.value := Exit(0, {})]
      ensures old(tasks)[t].vm.Some? && !old(tasks)[t].dirty ==> exits == old(exits) && PutAway(old(tasks)[t].vm.value)
    {
      hide Shows, LoadedExact, VmsOk, ExitsOk, HooksOk, QuietOk, NamesDistinct, Rely, Stable, OwnersOk, FreshOk, CalmOk;
      RelyRefl(modules, quiet);
      ghost var was := Seen();
      var l := tasks[t];
      ExitVms(lua, tasks, irqVms, pool, exits.Keys, hooks, nextReader, modules, quiet, t);
      CalmLess(tasks, running, lively, t);
      tasks := tasks - {t};
      if l.vm.Some? {
        var vm := l.vm.value;
        BeginExit(modules, lua, exits, gone, vm, leaving, removed);
        assert exits[vm := Exit(0, {})].Keys == exits.Keys + {vm};
        ghost var before := exits;
        exits := exits[vm := Exit(0, {})];
        StableBy(was, Seen(), quiet, leaving, gone);
        OwnersBy(was, Seen(), irqVms);
        if !l.dirty {
          ghost var now := Seen();
          Put(vm);
          StableTrans(was, now, Seen(), quiet, leaving, gone);
          assert exits == before;
        }
      } else {
        StableBy(was, Seen(), quiet, leaving, gone);
        OwnersBy(was, Seen(), irqVms);
      }
    }

    /** Where a Lua state without modules has gone: to the pool, or away if the pool was full. */
    twostate predicate PutAway(vm: Vm)
      reads this
    {
      if |old(pool)| < poolMax then pool == [vm] + old(pool) && lua == old(lua) else pool == old(pool) && lua == old(lua) - {vm}
    }

    /** lvm_pool_put, for a Lua state that belongs to no task any more. */
    method Put(vm: Vm)
      requires Inv() && vm in exits && vm in lua && lua[vm] == {}
      modifies `lua, `pool, `exits
      ensures Undisturbed() && exits == old(exits) - {vm} && PutAway(vm)
    {
      hide Shows, LoadedExact, VmsOk, ExitsOk, HooksOk, QuietOk, NamesDistinct, Rely, Stable, OwnersOk, CalmOk;
      RelyRefl(modules, quiet);
      ghost var was := Seen();
      PutVms(lua, tasks, irqVms, pool, exits.Keys, vm);
      EmptyKeepsExact(modules, lua, vm, leaving, removed);
      PutExits(modules, lua, exits, gone, vm);
      assert (exits - {vm}).Keys == exits.Keys - {vm};
      exits := exits - {vm};
      if |pool| < poolMax {
        pool := [vm] + pool;
      } else {
        lua := lua - {vm};
      }
      StableBy(was, Seen(), quiet, leaving, gone);
      OwnersBy(was, Seen(), irqVms);
    }

    /**
     One turn of lua_modules_free, whose test is on the whole _MODULES table; after the last one, lvm_vm_reset
     empties the table. No module is missed, and none is taken off twice, although the list changes meanwhile.
     */
    method ExitTurn(vm: Vm)
      requires Inv() && vm in exits
      modifies `modules, `lua, `pool, `exits
      ensures Undisturbed()
      ensures vm in exits ==> old(exits)[vm].from < exits[vm].from <= done + 1
      ensures vm !in exits ==> PutAway(vm) && modules == old(modules) && vm in old(lua) && old(lua)[vm] == {}
    {
      hide Shows, LoadedExact, VmsOk, ExitsOk, HooksOk, QuietOk, Stable, NamesDistinct, Rely, OwnersOk, FreshOk, CalmOk;
      ListedInOrder(history, modules, nhooks, active, done);
      var e := exits[vm];
      var k := Next(modules, e.from);
      if k == |modules| {
        EndOfExit(modules, lua, exits, gone, vm);
        Put(vm);
      } else {
        Taken(vm, k);
      }
    }

    method Taken(vm: Vm, k: nat)
      requires Inv() && vm in exits && k < |modules| && IsNext(modules, exits[vm].from, k) && Increasing(modules)
      modifies `modules, `lua, `exits
      ensures Undisturbed() && vm in exits && exits[vm].from == old(modules)[k].stamp + 1
      ensures vm in old(lua) && modules == if old(modules)[k].name in old(lua)[vm] then WithLoaded(old(modules), k, -1) else old(modules)
    {
      hide Shows, LoadedExact, VmsOk, ExitsOk, HooksOk, QuietOk, Stable, NamesDistinct, Rely, OwnersOk, FreshOk, CalmOk, NotMet;
      RelyRefl(modules, quiet);
      var n, e := modules[k].name, exits[vm];
      ExitLua(lua, tasks, irqVms, pool, exits.Keys, vm, n);
      TurnExit(modules, lua, exits, gone, vm, k);
      if n in lua[vm] + e.off {
        var after := Exit(modules[k].stamp + 1, e.off + {n});
        TakenKeeps(Seen(), k, vm, after, leaving, removed, quiet, gone, history, nhooks, active, done, irqVms, pool, nextVm);
        lua, exits, modules := lua[vm := lua[vm] - {n}], exits[vm := after], WithLoaded(modules, k, -1);
      } else {
        var after := Exit(modules[k].stamp + 1, e.off);
        NotMetTaken(exits, vm, after, n, gone);
        assert exits[vm := after].Keys == exits.Keys && e.off + lua[vm] * {n} == e.off;
        LuaLess(Seen(), modules, vm, n, exits[vm := after], irqVms, quiet, leaving, gone);
        assert lua[vm] - {n} == lua[vm] && lua[vm := lua[vm] - {n}] == lua;
        exits := exits[vm := after];
      }
    }

    /** The exit of a task comes to its end. */
    method EndExit(vm: Vm)
      requires Inv()
      modifies `modules, `lua, `pool, `exits
      ensures Undisturbed() && vm !in exits
    {
      hide Shows, LoadedExact, VmsOk, ExitsOk, HooksOk, QuietOk, Stable, NamesDistinct, Rely, OwnersOk, FreshOk, CalmOk;
      StableRefl(Seen(), quiet, leaving, gone);
      while vm in exits
        invariant Undisturbed()
        decreases vm in exits, if vm in exits then done + 1 - exits[vm].from else 0
      {
        ghost var was := Seen();
        ExitTurn(vm);
        StableTrans(old(Seen()), was, Seen(), quiet, leaving, gone);
      }
    }

    // -------------------------------------------------------------- the other threads

    method SomeStep()
      requires Inv()
      modifies `tasks, `lua, `modules, `pool, `exits, `nextVm, `hooks, `nextReader, `running
      ensures Undisturbed()
    {
      hide Shows, LoadedExact, VmsOk, ExitsOk, HooksOk, QuietOk, Stable, NamesDistinct, Rely, OwnersOk, FreshOk, CalmOk;
      StableRefl(Seen(), quiet, leaving, gone);
      var t: Task, r: Reader, k: nat, yes: bool := *, *, *, *;
      var now: set<Task> := *;
      if
      case t !in tasks => var _ := TaskInit(t, yes);
      case t in tasks && lively(t) && tasks[t].refcount == 0 => var _ := StartInTask(t, yes);
      case t in tasks && tasks[t].refcount == 0 => TaskExit(t);
      case k in irqVms => var _ := StartInSoftirq(k);
      case r in hooks && k < |modules| => var _ := Pick(r, k);
      case r in hooks && hooks[r].picked.Some? => Load(r, yes);
      case r in hooks => EndHook(r);
      case k in exits => ExitTurn(k);
      case forall u <- now :: lively(u) => Schedule(now);
      case true =>
    }

    /** Any number of steps of the other threads. */
    method Interfere()
      requires Inv()
      modifies `tasks, `lua, `modules, `pool, `exits, `nextVm, `hooks, `nextReader, `running
      ensures Undisturbed() && Rely(old(modules), modules, quiet)
    {
      hide Shows, LoadedExact, VmsOk, ExitsOk, HooksOk, QuietOk, Stable, NamesDistinct, Rely, OwnersOk, FreshOk, CalmOk;
      var steps: nat := *;
      StableRefl(Seen(), quiet, leaving, gone);
      while steps > 0
        invariant Undisturbed()
      {
        ghost var was := Seen();
        SomeStep();
        StableTrans(old(Seen()), was, Seen(), quiet, leaving, gone);
        steps := steps - 1;
      }
      StableRely(old(Seen()), Seen(), quiet, leaving, gone);
    }

    /** synchronize_srcu: returns when every hook that was running when it was called has ended, and every exit of a task. */
    method Synchronize()
      requires Inv()
      modifies `tasks, `lua, `modules, `pool, `exits, `nextVm, `hooks, `nextReader, `running
      ensures Undisturbed() && Rely(old(modules), modules, quiet) && forall r <- hooks :: r >= old(nextReader)
      ensures gone.Some? ==> forall vm <- exits :: gone.value !in exits[vm].off
    {
      hide Shows, LoadedExact, VmsOk, ExitsOk, HooksOk, QuietOk, Stable, NamesDistinct, Rely, OwnersOk, FreshOk, CalmOk;
      StableRefl(Seen(), quiet, leaving, gone);
      var since := nextReader;
      var running, exiting := hooks.Keys, exits.Keys;
      while running != {} || exiting != {}
        invariant Undisturbed() && forall r <- hooks :: r in running || r >= since
        invariant gone.Some? ==> forall vm <- exits :: gone.value in exits[vm].off ==> vm in exiting
        decreases |running| + |exiting|
      {
        ghost var was := Seen();
        StableParts(old(Seen()), was, quiet, leaving, gone);
        Interfere();
        StableParts(was, Seen(), quiet, leaving, gone);
        StableTrans(old(Seen()), was, Seen(), quiet, leaving, gone);
        was := Seen();
        if running != {} {
          var r :| r in running;
          running := running - {r};
          if r in hooks {
            EndHook(r);
          }
        } else {
          var vm :| vm in exiting;
          exiting := exiting - {vm};
          EndExit(vm);
        }
        StableRefl(was, quiet, leaving, gone);
        StableParts(was, Seen(), quiet, leaving, gone);
        StableTrans(old(Seen()), was, Seen(), quiet, leaving, gone);
      }
      StableRely(old(Seen()), Seen(), quiet, leaving, gone);
    }

    // -------------------------------------------------------------- registering and unregistering

    /** A store of a thread that holds modules_mutex: the board changes. */
    ghost method Record(b: Board)
      requires history != [] && Run(history) && BoardOk(b) && Evolves(Last(history), b)
      modifies `history
      ensures history == old(history) + [b] && Run(history) && Last(history) == b
    {
      RunStep(history, b);
      history := history + [b];
    }

    /** atomic_inc of the counter of a hook of a module that is being registered. */
    method HookInc(h: nat)
      requires Inv() && h !in Now(history).ahead.hooks
      modifies `nhooks, `history
      ensures Inv() && old(history) <= history
      ensures Now(history).ahead == Ahead(Now(old(history)).ahead.hooks + {h}, Now(old(history)).ahead.live)
    {
      hide LoadedExact, VmsOk, ExitsOk, HooksOk, QuietOk, NamesDistinct, BoardOk, Evolves, Run, OwnersOk, FreshOk, CalmOk;
      ghost var b := Last(history);
      RunOk(history);
      CountHook(b, h);
      nhooks := nhooks[h := HookCount(nhooks, h) + 1];
      Record(b.(nhooks := nhooks, ahead := b.ahead.(hooks := b.ahead.hooks + {h})));
    }

    /** atomic_dec of the counter of a hook of a module that is not live any more. */
    method HookDec(h: nat)
      requires Inv() && h in Now(history).ahead.hooks
      modifies `nhooks, `history
      ensures Inv() && old(history) <= history
      ensures Now(history).ahead == Ahead(Now(old(history)).ahead.hooks - {h}, Now(old(history)).ahead.live)
    {
      hide LoadedExact, VmsOk, ExitsOk, HooksOk, QuietOk, NamesDistinct, BoardOk, Evolves, Run, OwnersOk, FreshOk, CalmOk;
      ghost var b := Last(history);
      RunOk(history);
      UncountHook(b, h);
      nhooks := nhooks[h := HookCount(nhooks, h) - 1];
      Record(b.(nhooks := nhooks, ahead := b.ahead.(hooks := b.ahead.hooks - {h})));
    }

    /** The hooks of a new module are counted, one by one. */
    method CountHooks(hs: set<nat>)
      requires Unlocked()
      modifies `tasks, `lua, `modules, `pool, `exits, `nextVm, `hooks, `nextReader, `running, `nhooks, `history
      ensures Inv() && Rely(old(modules), modules, quiet) && gone == old(gone) && old(history) <= history && Now(history).ahead == Ahead(hs, 0)
    {
      hide Shows, LoadedExact, VmsOk, ExitsOk, HooksOk, QuietOk, Stable, NamesDistinct, Rely, OwnersOk, FreshOk, CalmOk;
      RelyRefl(modules, quiet);
      var todo := hs;
      while todo != {}
        invariant Inv() && Rely(old(modules), modules, quiet) && old(history) <= history
        invariant todo <= hs && Now(history).ahead == Ahead(hs - todo, 0)
      {
        var h :| h in todo;
        HookInc(h);
        todo := todo - {h};
        assert hs - todo - {h} + {h} == hs - todo;
        ghost var was := modules;
        Interfere();
        RelyTrans(old(modules), was, modules, quiet);
      }
    }

    /** The hooks of a module that has left are counted no longer, one by one. */
    method UncountHooks(hs: set<nat>)
      requires Inv() && Now(history).ahead == Ahead(hs, 0)
      modifies `tasks, `lua, `modules, `pool, `exits, `nextVm, `hooks, `nextReader, `running, `nhooks, `history
      ensures Inv() && Rely(old(modules), modules, quiet) && leaving == old(leaving) && gone == old(gone) && old(history) <= history
      ensures Now(history).ahead == SETTLED
    {
      hide Shows, LoadedExact, VmsOk, ExitsOk, HooksOk, QuietOk, Stable, NamesDistinct, Rely, OwnersOk, FreshOk, CalmOk;
      RelyRefl(modules, quiet);
      var todo := hs;
      while todo != {}
        invariant Inv() && Rely(old(modules), modules, quiet) && leaving == old(leaving) && gone == old(gone) && old(history) <= history
        invariant Now(history).ahead == Ahead(todo, 0)
      {
        var h :| h in todo;
        HookDec(h);
        todo := todo - {h};
        ghost var was := modules;
        Interfere();
        RelyTrans(old(modules), was, modules, quiet);
      }
    }

    /** list_add_tail_rcu of a new module, whose hooks have been counted. */
    method AddTail(n: Name, hs: set<nat>)
      requires Inv() && leaving == None && gone == None && Now(history).ahead == Ahead(hs, 0) && !Registered(modules, n)
      modifies `modules, `history
      ensures Inv() && old(history) <= history && Now(history).ahead == Ahead({}, -1)
      ensures modules == old(modules) + [Module(n, hs, Live, 0, done)]
    {
      hide LoadedExact, VmsOk, ExitsOk, HooksOk, QuietOk, NamesDistinct, BoardOk, Evolves, Run, OwnersOk, FreshOk, CalmOk;
      ghost var b := Last(history);
      var m := Module(n, hs, Live, 0, done);
      RegisterKeeps(modules, m, quiet, hooks, nextReader, tasks, irqVms);
      RegisterKeepsExact(modules, m, lua, leaving, removed);
      AppendExits(modules, m, lua, exits);
      RunOk(history);
      ListModule(b, m);
      modules := modules + [m];
      Record(b.(modules := b.modules + [m], ahead := Ahead({}, -1)));
    }

    /** static_branch_inc for the module that has been put on the list. */
    method KeyInc()
      requires Inv() && Now(history).ahead == Ahead({}, -1)
      modifies `active, `done, `history
      ensures Inv() && old(history) <= history && Now(history).ahead == SETTLED && done == old(done) + 1
    {
      hide LoadedExact, VmsOk, ExitsOk, HooksOk, QuietOk, NamesDistinct, BoardOk, Evolves, Run, OwnersOk, FreshOk, CalmOk;
      ghost var b := Last(history);
      RunOk(history);
      CountLive(b);
      active, done := active + 1, done + 1;
      Record(b.(active := active, ahead := SETTLED, done := done));
    }

    /** static_branch_dec for a module that is not live any more. */
    method KeyDec()
      requires Inv() && Now(history).ahead.live == 1
      modifies `active, `history
      ensures Inv() && old(history) <= history && Now(history).ahead == Now(old(history)).ahead.(live := 0)
    {
      hide LoadedExact, VmsOk, ExitsOk, HooksOk, QuietOk, NamesDistinct, BoardOk, Evolves, Run, OwnersOk, FreshOk, CalmOk;
      ghost var b := Last(history);
      RunOk(history);
      UncountLive(b);
      active := active - 1;
      Record(b.(active := active, ahead := b.ahead.(live := 0)));
    }

    /** A new module, whose hooks have been counted, is put on the list, and then the static key counts it. */
    method Enter(n: Name, hs: set<nat>)
      requires Inv() && leaving == None && gone == None && Now(history).ahead == Ahead(hs, 0) && !Registered(modules, n)
      modifies `tasks, `lua, `modules, `pool, `exits, `nextVm, `hooks, `nextReader, `running, `active, `done, `history
      ensures Unlocked() && old(history) <= history && done == old(done) + 1
      ensures SameModules(old(modules) + [Module(n, hs, Live, 0, old(done))], modules)
    {
      hide Shows, LoadedExact, VmsOk, ExitsOk, HooksOk, QuietOk, Stable, NamesDistinct, Rely, OwnersOk, FreshOk, CalmOk, Registered, SameModules;
      AddTail(n, hs);
      ghost var was := modules;
      Interfere();
      RelyModules(was, modules, quiet);
      KeyInc();
    }

    /**
     The critical section of lua_lsm_module_register; the module has been compiled before it. First its hooks
     are counted, then it is put on the list, then the static key counts it.
     */
    method Register(n: Name, hs: set<nat>) returns (err: Errno)
      requires Unlocked()
      modifies `tasks, `lua, `modules, `pool, `exits, `nextVm, `hooks, `nextReader, `running, `nhooks, `active, `done, `history
      ensures Unlocked() && old(history) <= history
      ensures err in {OK, EEXIST} && (err == EEXIST <==> Registered(old(modules), n))
      ensures err == EEXIST ==> modules == old(modules) && nhooks == old(nhooks) && active == old(active) && history == old(history)
      ensures err == OK ==> SameModules(old(modules) + [Module(n, hs, Live, 0, old(done))], modules) && done == old(done) + 1
    {
      hide Shows, LoadedExact, VmsOk, ExitsOk, HooksOk, QuietOk, Stable, NamesDistinct, Rely, OwnersOk, FreshOk, CalmOk, Registered, SameModules;
      var k := Find(n);
      if k < |modules| {
        return EEXIST;
      }
      CountHooks(hs);
      RelyModules(old(modules), modules, quiet);
      SameRegistered(old(modules), modules);
      ghost var counted := modules;
      Enter(n, hs);
      SameAppend(old(modules), counted, Module(n, hs, Live, 0, old(done)), modules);
      return OK;
    }

    /** lvm_remove_module */
    method RemoveModule(vm: Vm, n: Name) returns (err: Errno)
      requires Inv() && leaving == Some(n) && vm in lua
      modifies `lua, `removed
      ensures Undisturbed() && lua == old(lua)[vm := old(lua)[vm] - {n}]
      ensures err in {OK, ENOENT} && (err == OK <==> n in old(lua)[vm]) && removed == old(removed) + Bit(err == OK)
      ensures err == ENOENT ==> lua == old(lua)
    {
      hide Shows, LoadedExact, VmsOk, ExitsOk, HooksOk, QuietOk, NamesDistinct, Stable, Rely, NotMet, OwnersOk, FreshOk, CalmOk;
      StableRefl(Seen(), quiet, leaving, gone);
      if n in lua[vm] {
        RelyRefl(modules, quiet);
        NotMetSame(exits, gone);
        LuaLess(Seen(), modules, vm, n, exits, irqVms, quiet, leaving, gone);
        FreshSet(lua, vm, lua[vm] - {n}, nextVm);
        RemoveKeepsExact(modules, lua, vm, n, removed);
        RemoveVms(lua, tasks, irqVms, pool, exits.Keys, vm, n);
        LuaExits(modules, lua, lua[vm := lua[vm] - {n}], exits, gone);
        lua, removed := lua[vm := lua[vm] - {n}], removed + 1;
        return OK;
      }
      assert lua[vm] - {n} == lua[vm];
      assert lua[vm := lua[vm] - {n}] == lua;
      return ENOENT;
    }

    /** task_remove_module: not while the task runs, nor while a hook runs in it, nor if it never ran one. */
    method TaskRemoveModule(t: Task, n: Name) returns (err: Errno)
      requires Inv() && leaving == Some(n) && t in tasks
      modifies `tasks, `lua, `removed
      ensures Undisturbed() && tasks == old(tasks) && removed == old(removed) + Bit(err == OK)
      ensures err == if t in running then EBUSY
                     else if tasks[t].vm.None? then ENOENT
                     else if tasks[t].refcount > 0 then EAGAIN
                     else if Holds(old(lua), tasks[t].vm.value, n) then OK
                     else ENOENT
      ensures err == OK ==> Holds(old(lua), tasks[t].vm.value, n) && lua == old(lua)[tasks[t].vm.value := old(lua)[tasks[t].vm.value] - {n}]
      ensures err != OK ==> lua == old(lua)
    {
      hide Shows, LoadedExact, VmsOk, ExitsOk, HooksOk, QuietOk, NamesDistinct, Stable, OwnersOk, FreshOk, CalmOk;
      StableRefl(Seen(), quiet, leaving, gone);
      if t in running {
        return EBUSY;
      }
      var l := tasks[t];
      if l.vm.None? {
        return ENOENT;
      }
      if l.refcount + 1 != 1 {
        return EAGAIN;
      }
      OwnLua(lua, tasks, irqVms, pool, exits.Keys, t);
      err := RemoveModule(l.vm.value, n);
    }

    /** One task, if it is still there: then either the module is gone from its Lua state, or the task was busy. */
    method RemoveFrom(t: Task, n: Name) returns (err: Errno)
      requires Inv() && leaving == Some(n)
      modifies `tasks, `lua, `removed
      ensures Undisturbed() && removed == old(removed) + Bit(err == OK)
      ensures err in {OK, ENOENT, EBUSY, EAGAIN}
      ensures err in {OK, ENOENT} ==> !TaskHolds(Seen(), t, n)
      ensures err in {EBUSY, EAGAIN} ==> lively(t)
    {
      hide Shows, LoadedExact, VmsOk, ExitsOk, HooksOk, QuietOk, NamesDistinct, Stable, OwnersOk, FreshOk;
      StableRefl(Seen(), quiet, leaving, gone);
      if t in tasks {
        err := TaskRemoveModule(t, n);
      } else {
        err := ENOENT;
      }
    }

    /** The same, while others run; `rest` are the tasks that are still to be visited. */
    method Visit(t: Task, n: Name, ghost rest: set<Task>) returns (err: Errno)
      requires Inv() && leaving == Some(n) && n in quiet && OnlyLively(Seen(), idle + (rest + {t}), lively, n)
      modifies `tasks, `lua, `modules, `pool, `exits, `nextVm, `hooks, `nextReader, `running, `removed
      ensures Undisturbed() && removed == old(removed) + Bit(err == OK) && OnlyLively(Seen(), idle + rest, lively, n)
      ensures err in {OK, ENOENT, EBUSY, EAGAIN}
      ensures NoTaskHolds(old(Seen()), idle + (rest + {t}), n) && err in {OK, ENOENT} ==> NoTaskHolds(Seen(), idle + rest, n)
    {
      hide Shows, LoadedExact, VmsOk, ExitsOk, HooksOk, QuietOk, Stable, NamesDistinct, Rely, OwnersOk, FreshOk, CalmOk, TaskHolds, OnlyLively, NoTaskHolds;
      err := RemoveFrom(t, n);
      Visited(old(Seen()), Seen(), idle + (rest + {t}), idle + rest, lively, t, n, err in {EBUSY, EAGAIN}, quiet, leaving, gone);
      ghost var was := Seen();
      Interfere();
      RidKept(was, Seen(), irqVms, idle + rest, lively, n, quiet, leaving, gone);
      StableTrans(old(Seen()), was, Seen(), quiet, leaving, gone);
    }

    /** tasks_lvm_remove_module, over the tasks that there are when it begins; idle tasks are not among them. */
    method TasksRemoveModule(n: Name) returns (count: nat, nbusy: nat)
      requires Inv() && leaving == Some(n) && n in quiet
      modifies `tasks, `lua, `modules, `pool, `exits, `nextVm, `hooks, `nextReader, `running, `removed, `rounds
      ensures Undisturbed() && removed == old(removed) + count && rounds == old(rounds) + 1
      ensures OnlyLively(Seen(), idle, lively, n) && (nbusy == 0 ==> NoTaskHolds(Seen(), idle, n))
    {
      hide Shows, LoadedExact, VmsOk, ExitsOk, HooksOk, QuietOk, Stable, NamesDistinct, Rely, OwnersOk, FreshOk, CalmOk, TaskHolds, OnlyLively, NoTaskHolds;
      count, nbusy := 0, 0;
      rounds := rounds + 1;
      StableRefl(Seen(), quiet, leaving, gone);
      var todo := tasks.Keys - idle;
      VisitsStart(Seen(), idle, lively, n);
      while todo != {}
        invariant Undisturbed() && removed == old(removed) + count && rounds == old(rounds) + 1
        invariant OnlyLively(Seen(), idle + todo, lively, n) && (nbusy == 0 ==> NoTaskHolds(Seen(), idle + todo, n))
      {
        var t :| t in todo;
        assert todo - {t} + {t} == todo;
        todo := todo - {t};
        ghost var was := Seen();
        var err := Visit(t, n, todo);
        if err == OK {
          count := count + 1;
        } else if err == EBUSY || err == EAGAIN {
          nbusy := nbusy + 1;
        }
        StableTrans(old(Seen()), was, Seen(), quiet, leaving, gone);
      }
      assert idle + todo == idle;
    }

    /** schedule_on_each_cpu of softirq_lvm_remove_module: no Lua state of a CPU holds the module afterwards. */
    method SoftirqsRemoveModule(n: Name) returns (count: nat)
      requires Inv() && leaving == Some(n) && n in quiet
      modifies `tasks, `lua, `modules, `pool, `exits, `nextVm, `hooks, `nextReader, `running, `removed
      ensures Undisturbed() && removed == old(removed) + count && NoIrqHolds(Seen(), irqVms, n)
    {
      hide Shows, LoadedExact, VmsOk, ExitsOk, HooksOk, QuietOk, Stable, NamesDistinct, Rely, OwnersOk, FreshOk, CalmOk, NoIrqHolds;
      count := 0;
      StableRefl(Seen(), quiet, leaving, gone);
      var todo := irqVms;
      NoIrqYet(Seen(), irqVms - todo, n);
      while todo != {}
        invariant Undisturbed() && removed == old(removed) + count && todo <= irqVms
        invariant NoIrqHolds(Seen(), irqVms - todo, n)
      {
        var vm :| vm in todo;
        IrqLua(lua, tasks, irqVms, pool, exits.Keys, vm);
        ghost var was := Seen();
        var err := RemoveModule(vm, n);
        if err == OK {
          count := count + 1;
        }
        RidKept(was, Seen(), irqVms - todo, {}, lively, n, quiet, leaving, gone);
        OneIrqLess(Seen(), irqVms - todo, vm, n);
        assert irqVms - (todo - {vm}) == irqVms - todo + {vm};
        todo := todo - {vm};
        StableTrans(old(Seen()), was, Seen(), quiet, leaving, gone);
        was := Seen();
        Interfere();
        RidKept(was, Seen(), irqVms - todo, {}, lively, n, quiet, leaving, gone);
        StableTrans(old(Seen()), was, Seen(), quiet, leaving, gone);
      }
      assert irqVms - todo == irqVms;
    }

    /** The loop over the idle tasks: those that still hold the module are lively. */
    method IdleRemoveModule(n: Name) returns (count: nat)
      requires Inv() && leaving == Some(n) && n in quiet
      modifies `tasks, `lua, `modules, `pool, `exits, `nextVm, `hooks, `nextReader, `running, `removed
      ensures Undisturbed() && removed == old(removed) + count && IdleRid(Seen(), idle, lively, n)
    {
      hide Shows, LoadedExact, VmsOk, ExitsOk, HooksOk, QuietOk, Stable, NamesDistinct, Rely, OwnersOk, FreshOk, CalmOk, TaskHolds, IdleRid;
      count := 0;
      StableRefl(Seen(), quiet, leaving, gone);
      var todo := idle;
      NoIdleYet(Seen(), idle - todo, lively, n);
      while todo != {}
        invariant Undisturbed() && removed == old(removed) + count && todo <= idle
        invariant IdleRid(Seen(), idle - todo, lively, n)
      {
        var t :| t in todo;
        ghost var was := Seen();
        var err := RemoveFrom(t, n);
        if err == OK {
          count := count + 1;
        }
        RidKept(was, Seen(), irqVms, idle - todo, lively, n, quiet, leaving, gone);
        OneIdleLess(Seen(), idle - todo, lively, t, n);
        assert idle - (todo - {t}) == idle - todo + {t};
        todo := todo - {t};
        StableTrans(old(Seen()), was, Seen(), quiet, leaving, gone);
        was := Seen();
        Interfere();
        RidKept(was, Seen(), irqVms, idle - todo, lively, n, quiet, leaving, gone);
        StableTrans(old(Seen()), was, Seen(), quiet, leaving, gone);
      }
      assert idle - todo == idle;
    }

    /** The store to the state of a module that is to leave: from now on it serves no hook. */
    method SetGoing(k: nat) returns (m: Module)
      requires Unlocked() && k < |modules|
      modifies `modules, `leaving, `removed, `history
      ensures Inv() && leaving == Some(m.name) && removed == 0 && m == old(modules)[k]
      ensures old(history) <= history && Now(history).ahead == Left(m)
      ensures k < |modules| && modules[k].life != Live && modules == old(modules)[k := m.(life := modules[k].life)]
    {
      hide LoadedExact, VmsOk, ExitsOk, HooksOk, QuietOk, NamesDistinct, BoardOk, Evolves, Run, OwnersOk, FreshOk, CalmOk;
      m := modules[k];
      KnownLife(modules, k, quiet, leaving);
      var going := m.(life := if m.life == Live then Going else m.life);
      LifeKeeps(modules, k, going, quiet, hooks, nextReader, tasks, irqVms);
      LifeQuiet(modules, k, going, quiet, None, Some(m.name));
      LeavingKeepsExact(modules, k, going, lua, removed);
      SetExits(modules, k, going, lua, exits);
      ghost var b := Last(history);
      RunOk(history);
      BareSet(modules, k, going);
      EndLife(b, k, b.modules[k].(life := going.life));
      modules, leaving, removed := modules[k := going], Some(m.name), 0;
      Record(b.(modules := b.modules[k := b.modules[k].(life := going.life)], ahead := Left(b.modules[k])));
    }

    /** The stores to the static key and to the counters of the hooks, for a module that was live. */
    method LeaveCounters(m: Module)
      requires Inv() && m.life == Live && Now(history).ahead == Left(m)
      modifies `tasks, `lua, `modules, `pool, `exits, `nextVm, `hooks, `nextReader, `running, `nhooks, `active, `history
      ensures Inv() && Rely(old(modules), modules, quiet) && leaving == old(leaving) && gone == old(gone) && old(history) <= history
      ensures Now(history).ahead == SETTLED
    {
      hide Shows, LoadedExact, VmsOk, ExitsOk, HooksOk, QuietOk, Stable, NamesDistinct, Rely, OwnersOk, FreshOk, CalmOk;
      Interfere();
      KeyDec();
      ghost var was := modules;
      Interfere();
      RelyTrans(old(modules), was, modules, quiet);
      was := modules;
      UncountHooks(m.hooks);
      RelyTrans(old(modules), was, modules, quiet);
    }

    /** The module's state changes, then the static key, then the counters of its hooks: no hook is served by it any more. */
    method StopServing(k: nat)
      requires Unlocked() && k < |modules|
      modifies `tasks, `lua, `modules, `pool, `exits, `nextVm, `hooks, `nextReader, `running, `nhooks, `active, `leaving, `removed, `history
      ensures Inv() && leaving == Some(old(modules)[k].name) && gone == None && removed == 0
      ensures old(history) <= history && Now(history).ahead == SETTLED && k < |modules| == |old(modules)| && modules[k].life != Live
      ensures Rely(old(modules)[k := old(modules)[k].(life := modules[k].life)], modules, quiet)
    {
      hide Shows, LoadedExact, VmsOk, ExitsOk, HooksOk, QuietOk, Stable, NamesDistinct, Rely, OwnersOk, FreshOk, CalmOk;
      var m := SetGoing(k);
      ghost var was := modules;
      RelyRefl(modules, quiet);
      if m.life == Live {
        LeaveCounters(m);
      }
      RelyAt(was, modules, quiet);
    }

    /**
     The beginning of lua_lsm_module_unregister. In the end no hook is served by the module any more, and none can
     load it.
     */
    method StartLeaving(k: nat)
      requires Unlocked() && k < |modules|
      modifies this
      ensures Inv() && leaving == Some(old(modules)[k].name) && removed == 0
      ensures old(history) <= history && Now(history).ahead == SETTLED
      ensures quiet == old(quiet) + {old(modules)[k].name} && gone == None && rounds == old(rounds)
      ensures k < |modules| == |old(modules)| && modules[k].life != Live && modules[k].name == old(modules)[k].name
      ensures Rely(old(modules)[k := old(modules)[k].(life := modules[k].life)], modules, {})
    {
      hide Shows, LoadedExact, VmsOk, ExitsOk, HooksOk, QuietOk, Stable, NamesDistinct, Rely, OwnersOk, FreshOk, CalmOk;
      StopServing(k);
      ghost var stopped, was := old(modules)[k := old(modules)[k].(life := modules[k].life)], modules;
      GracePeriod();
      RelyTrans(stopped, was, modules, old(quiet));
      RelyAt(was, modules, old(quiet));
      RelyLess(stopped, modules, old(quiet));
      RelySame(stopped, modules);
    }

    /** The first grace period: afterwards no hook can load the leaving module any more. */
    method GracePeriod()
      requires Inv() && leaving.Some?
      modifies `tasks, `lua, `modules, `pool, `exits, `nextVm, `hooks, `nextReader, `running, `quiet
      ensures Inv() && quiet == old(quiet) + {leaving.value} && leaving == old(leaving) && Rely(old(modules), modules, old(quiet))
    {
      hide Shows, LoadedExact, VmsOk, ExitsOk, HooksOk, QuietOk, Stable, NamesDistinct, Rely, OwnersOk, FreshOk, CalmOk;
      ghost var before := Seen();
      OldHooks(hooks, nextReader, tasks, irqVms, modules, quiet);
      Synchronize();
      StableParts(before, Seen(), quiet, leaving, gone);
      QuietNow(hooks, nextReader, tasks, irqVms, modules, quiet, leaving, before.hooks, before.next);
      quiet := quiet + {leaving.value};
    }

    /** A module that no Lua state is counted for any more is taken off the list: list_del_rcu. */
    method ListDel(k: nat)
      requires Inv() && k < |modules| && leaving == Some(modules[k].name) && gone == None && Now(history).ahead == SETTLED
      requires modules[k].name in quiet && modules[k].life != Live && modules[k].nloaded == removed
      modifies `modules, `leaving, `removed, `quiet, `gone, `history
      ensures Inv() && leaving == None && gone == Some(old(modules)[k].name) && old(history) <= history && Now(history).ahead == SETTLED
      ensures Holders(lua, old(modules)[k].name) == {} && modules == old(modules)[..k] + old(modules)[k + 1..]
    {
      hide LoadedExact, VmsOk, ExitsOk, HooksOk, QuietOk, NamesDistinct, BoardOk, Evolves, Run, OwnersOk, FreshOk, CalmOk;
      ghost var n := modules[k].name;
      DelKeeps(modules, k, lua, removed, quiet, exits, hooks, nextReader, tasks, irqVms);
      BareWithout(modules, k);
      ghost var b := Last(history);
      RunOk(history);
      Unlist(b, k);
      leaving, removed, quiet, gone := None, 0, quiet - {n}, Some(n);
      modules := modules[..k] + modules[k + 1..];
      Record(b.(modules := b.modules[..k] + b.modules[k + 1..]));
    }

    /** A module that some Lua state is still counted for stays, as a zombie. */
    method SetZombie(k: nat, count: nat)
      requires Inv() && k < |modules| && leaving == Some(modules[k].name) && gone == None && Now(history).ahead == SETTLED
      requires modules[k].name in quiet && modules[k].life != Live && count == removed
      modifies `modules, `leaving, `removed, `history
      ensures Unlocked() && old(history) <= history
      ensures modules == old(modules)[k := old(modules)[k].(life := Zombie, nloaded := |Holders(lua, old(modules)[k].name)|)]
    {
      hide LoadedExact, VmsOk, ExitsOk, HooksOk, QuietOk, NamesDistinct, BoardOk, Evolves, Run, OwnersOk, FreshOk, CalmOk;
      var z := modules[k].(nloaded := modules[k].nloaded - count, life := Zombie);
      SettleKeepsExact(modules, k, Zombie, lua, removed);
      LifeKeeps(modules, k, z, quiet, hooks, nextReader, tasks, irqVms);
      LifeQuiet(modules, k, z, quiet, leaving, None);
      SetExits(modules, k, z, lua, exits);
      ghost var b := Last(history);
      RunOk(history);
      BareSet(modules, k, z);
      EndLife(b, k, b.modules[k].(life := Zombie));
      leaving, removed := None, 0;
      modules := modules[k := z];
      Record(b.(modules := b.modules[k := b.modules[k].(life := Zombie)], ahead := Left(b.modules[k])));
    }

    /**
     The end of lua_lsm_module_unregister: the module stays as a zombie, or is taken off the list and freed after
     another grace period, so that no exiting task can take a new module for it.
     */
    method FinishLeaving(k: nat, count: nat) returns (err: Errno)
      requires Inv() && k < |modules| && leaving == Some(modules[k].name) && gone == None && Now(history).ahead == SETTLED
      requires modules[k].name in quiet && modules[k].life != Live && count == removed
      modifies `tasks, `lua, `modules, `pool, `exits, `nextVm, `hooks, `nextReader, `running, `leaving, `removed, `quiet, `gone, `history
      ensures Unlocked() && old(history) <= history && err in {OK, EBUSY}
      ensures err == OK <==> Holders(old(lua), old(modules)[k].name) == {}
      ensures err == OK ==> SameModules(old(modules)[..k] + old(modules)[k + 1..], modules)
      ensures err == OK ==> !Registered(modules, old(modules)[k].name) && NobodyHolds(old(modules)[k].name)
      ensures err == EBUSY ==> lua == old(lua) && tasks == old(tasks) && exits == old(exits)
      ensures err == EBUSY ==> modules == old(modules)[k := old(modules)[k].(life := Zombie, nloaded := |Holders(lua, old(modules)[k].name)|)]
    {
      hide Shows, LoadedExact, VmsOk, ExitsOk, HooksOk, QuietOk, Stable, NamesDistinct, Rely, OwnersOk, FreshOk, CalmOk, Registered;
      SettledCount(modules, k, lua, removed);
      if modules[k].nloaded - count == 0 {
        ListDel(k);
        ghost var was := modules;
        Synchronize();
        RelyModules(was, modules, quiet);
        AllFreed(modules, lua, exits, gone, leaving, removed);
        gone := None;
        err := OK;
      } else {
        SetZombie(k, count);
        err := EBUSY;
      }
    }

    /** No _MODULES table holds the module, not even that of an exiting task. */
    ghost predicate NobodyHolds(n: Name)
      reads this
    {
      Holders(lua, n) == {} && forall vm <- exits :: n !in exits[vm].off
    }

    /** atomic_read of nloaded, at any time after `first`. */
    method ReadLoaded(k: nat, n: Name, ghost first: View) returns (nloaded: int)
      requires Inv() && k < |modules| && modules[k].name == n && leaving == Some(n) && n in quiet
      requires Stable(first, Seen(), quiet, leaving, gone) && NamesDistinct(first.modules)
      modifies `tasks, `lua, `modules, `pool, `exits, `nextVm, `hooks, `nextReader, `running
      ensures Undisturbed() && removed == old(removed) && Stable(first, Seen(), quiet, leaving, gone)
      ensures k < |modules| == |first.modules| && modules[k].name == n && removed <= nloaded == modules[k].nloaded <= first.modules[k].nloaded
      ensures nloaded <= removed ==> Holders(lua, n) == {}
    {
      hide Shows, LoadedExact, VmsOk, ExitsOk, HooksOk, QuietOk, Stable, NamesDistinct, Rely, OwnersOk, FreshOk, CalmOk;
      ghost var was := Seen();
      Interfere();
      StableTrans(first, was, Seen(), quiet, leaving, gone);
      SameAt(was, Seen(), quiet, leaving, gone);
      LoadedBounds(first, Seen(), k, lua, removed, quiet, gone);
      SettledCount(modules, k, lua, removed);
      nloaded := modules[k].nloaded;
    }

    /** One more round over the tasks; `nloaded` is not less than what has been counted, as the source warns. */
    method Round(k: nat, n: Name, counted: nat, loaded: int, ghost seen: View) returns (count: nat, nloaded: int, nbusy: nat)
      requires Inv() && k < |modules| && modules[k].name == n && leaving == Some(n) && n in quiet && removed == counted
      requires Stable(seen, Seen(), quiet, leaving, gone) && NamesDistinct(seen.modules)
      requires k < |modules| == |seen.modules| && loaded == seen.modules[k].nloaded
      modifies `tasks, `lua, `modules, `pool, `exits, `nextVm, `hooks, `nextReader, `running, `removed, `rounds
      ensures Undisturbed() && removed == count && rounds == old(rounds) + 1 && count <= loaded
      ensures k < |modules| == |seen.modules| && modules[k].name == n && nloaded == modules[k].nloaded
      ensures OnlyLively(Seen(), idle, lively, n) && (count == nloaded || nbusy == 0 ==> NoTaskHolds(Seen(), idle, n))
    {
      hide Shows, LoadedExact, VmsOk, ExitsOk, HooksOk, QuietOk, Stable, NamesDistinct, Rely, OwnersOk, FreshOk, CalmOk, OnlyLively, NoTaskHolds, NoIrqHolds, IdleRid;
      ghost var was := Seen();
      var c;
      c, nbusy := TasksRemoveModule(n);
      count := counted + c;
      StableTrans(seen, was, Seen(), quiet, leaving, gone);
      SameAt(was, Seen(), quiet, leaving, gone);
      SameAt(seen, Seen(), quiet, leaving, gone);
      LoadedBounds(seen, Seen(), k, lua, removed, quiet, gone);
      assert count <= loaded;
      ghost var now := Seen();
      nloaded := ReadLoaded(k, n, seen);
      RidKept(now, Seen(), irqVms, idle, lively, n, quiet, leaving, gone);
      if count == nloaded {
        AllRid(Seen(), irqVms, idle, lively, n);
      }
      StableTrans(old(Seen()), now, Seen(), quiet, leaving, gone);
    }

    /**
     The loop of lua_lsm_module_unregister that waits for busy tasks; `nloaded` is never less than what has been
     counted. It gives up after five rounds, or stops when no task holds the module any more.
     */
    method Retry(k: nat, n: Name, counted: nat, loaded: int) returns (count: nat)
      requires Inv() && k < |modules| && modules[k].name == n && leaving == Some(n) && n in quiet && removed == counted
      requires loaded == modules[k].nloaded && OnlyLively(Seen(), idle, lively, n)
      modifies `tasks, `lua, `modules, `pool, `exits, `nextVm, `hooks, `nextReader, `running, `removed, `rounds
      ensures Undisturbed() && removed == count
      ensures OnlyLively(Seen(), idle, lively, n) && rounds <= old(rounds) + 5
      ensures NoTaskHolds(Seen(), idle, n) || rounds == old(rounds) + 5
    {
      hide Shows, LoadedExact, VmsOk, ExitsOk, HooksOk, QuietOk, Stable, NamesDistinct, Rely, OwnersOk, FreshOk, CalmOk, OnlyLively, NoTaskHolds, NoIrqHolds, IdleRid;
      count := counted;
      var nloaded := loaded;
      ghost var seen := Seen();
      StableRefl(Seen(), quiet, leaving, gone);
      var i := 1;
      while i <= 5
        invariant Undisturbed() && removed == count && n in quiet && rounds == old(rounds) + (i - 1) && i <= 6
        invariant Stable(seen, Seen(), quiet, leaving, gone) && NamesDistinct(seen.modules) && k < |modules| == |seen.modules| && modules[k].name == n
        invariant nloaded == seen.modules[k].nloaded && seen.modules[k].name == n && OnlyLively(Seen(), idle, lively, n)
      {
        ghost var was := Seen();
        var nbusy;
        count, nloaded, nbusy := Round(k, n, count, nloaded, seen);
        StableTrans(old(Seen()), was, Seen(), quiet, leaving, gone);
        seen := Seen();
        StableRefl(Seen(), quiet, leaving, gone);
        if count == nloaded || nbusy == 0 {
          break;
        }
        was := Seen();
        nloaded := ReadLoaded(k, n, seen);
        RidKept(was, Seen(), irqVms, idle, lively, n, quiet, leaving, gone);
        StableTrans(old(Seen()), was, Seen(), quiet, leaving, gone);
        seen := Seen();
        StableRefl(Seen(), quiet, leaving, gone);
        if count == nloaded {
          AllRid(Seen(), irqVms, idle, lively, n);
          break;
        }
        i := i + 1;
      }
    }

    /** The first attempts: on the tasks, if the module is loaded at all, and on the softirqs. */
    method RemoveOnce(k: nat, n: Name) returns (count: nat, nbusy: Option<nat>)
      requires Inv() && k < |modules| && modules[k].name == n && leaving == Some(n) && n in quiet && removed == 0
      modifies `tasks, `lua, `modules, `pool, `exits, `nextVm, `hooks, `nextReader, `running, `removed, `rounds
      ensures Undisturbed() && removed == count
      ensures nbusy.None? ==> old(modules)[k].nloaded <= 0
      ensures OnlyLively(Seen(), idle, lively, n) && NoIrqHolds(Seen(), irqVms, n) && rounds == old(rounds) + Bit(nbusy.Some?)
      ensures nbusy == None || nbusy == Some(0) ==> NoTaskHolds(Seen(), idle, n)
    {
      hide Shows, LoadedExact, VmsOk, ExitsOk, HooksOk, QuietOk, Stable, NamesDistinct, Rely, OwnersOk, FreshOk, CalmOk, OnlyLively, NoTaskHolds, NoIrqHolds, IdleRid;
      count, nbusy := 0, None;
      ghost var first := Seen();
      StableRefl(Seen(), quiet, leaving, gone);
      SettledCount(modules, k, lua, removed);
      var nloaded := modules[k].nloaded;
      if nloaded > 0 {
        var c, b := TasksRemoveModule(n);
        count, nbusy := count + c, Some(b);
        SameAt(first, Seen(), quiet, leaving, gone);
      } else {
        AllRid(Seen(), irqVms, idle, lively, n);
      }
      ghost var was := Seen();
      nloaded := ReadLoaded(k, n, first);
      RidKept(was, Seen(), irqVms, idle, lively, n, quiet, leaving, gone);
      if count < nloaded {
        was := Seen();
        var c := SoftirqsRemoveModule(n);
        count := count + c;
        RidKept(was, Seen(), irqVms, idle, lively, n, quiet, leaving, gone);
        StableTrans(first, was, Seen(), quiet, leaving, gone);
      } else {
        AllRid(Seen(), irqVms, idle, lively, n);
      }
    }

    /** The attempts on the idle tasks, if the module is still loaded. */
    method RemoveIdle(k: nat, n: Name, counted: nat, ghost first: View) returns (count: nat, nloaded: int)
      requires Inv() && k < |modules| && modules[k].name == n && leaving == Some(n) && n in quiet && removed == counted
      requires Stable(first, Seen(), quiet, leaving, gone) && NamesDistinct(first.modules)
      modifies `tasks, `lua, `modules, `pool, `exits, `nextVm, `hooks, `nextReader, `running, `removed
      ensures Undisturbed() && removed == count && IdleRid(Seen(), idle, lively, n)
      ensures Stable(first, Seen(), quiet, leaving, gone) && k < |modules| == |first.modules| && modules[k].name == n
      ensures nloaded == modules[k].nloaded && count <= nloaded <= first.modules[k].nloaded && (nloaded <= count ==> Holders(lua, n) == {})
    {
      hide Shows, LoadedExact, VmsOk, ExitsOk, HooksOk, QuietOk, Stable, NamesDistinct, Rely, OwnersOk, FreshOk, CalmOk, OnlyLively, NoTaskHolds, NoIrqHolds, IdleRid;
      count := counted;
      nloaded := ReadLoaded(k, n, first);
      if count < nloaded {
        ghost var was := Seen();
        var c := IdleRemoveModule(n);
        count := count + c;
        StableTrans(first, was, Seen(), quiet, leaving, gone);
        StableTrans(old(Seen()), was, Seen(), quiet, leaving, gone);
        SameAt(was, Seen(), quiet, leaving, gone);
      } else {
        AllRid(Seen(), irqVms, idle, lively, n);
      }
      ghost var was := Seen();
      nloaded := ReadLoaded(k, n, first);
      RidKept(was, Seen(), irqVms, idle, lively, n, quiet, leaving, gone);
      StableTrans(old(Seen()), was, Seen(), quiet, leaving, gone);
    }

    /**
     The middle of lua_lsm_module_unregister: takes the module out of every Lua state that it can get hold of. Only
     Lua states of lively tasks and of exiting ones are left, and those of tasks on the list only after six rounds.
     */
    method RemoveEverywhere(k: nat, n: Name) returns (count: nat)
      requires Inv() && k < |modules| && modules[k].name == n && leaving == Some(n) && n in quiet && removed == 0
      modifies `tasks, `lua, `modules, `pool, `exits, `nextVm, `hooks, `nextReader, `running, `removed, `rounds
      ensures Undisturbed() && removed == count
      ensures OnlyLively(Seen(), idle, lively, n) && NoIrqHolds(Seen(), irqVms, n) && IdleRid(Seen(), idle, lively, n)
      ensures NoTaskHolds(Seen(), idle, n) || rounds == old(rounds) + 6
    {
      hide Shows, LoadedExact, VmsOk, ExitsOk, HooksOk, QuietOk, Stable, NamesDistinct, Rely, OwnersOk, FreshOk, CalmOk, OnlyLively, NoTaskHolds, NoIrqHolds, IdleRid;
      ghost var first := Seen();
      var nbusy: Option<nat>;
      count, nbusy := RemoveOnce(k, n);
      SameAt(first, Seen(), quiet, leaving, gone);
      ghost var was := Seen();
      var nloaded;
      count, nloaded := RemoveIdle(k, n, count, first);
      RidKept(was, Seen(), irqVms, idle, lively, n, quiet, leaving, gone);
      if count < nloaded && nbusy.value > 0 {
        was := Seen();
        count := Retry(k, n, count, nloaded);
        RidKept(was, Seen(), irqVms, idle, lively, n, quiet, leaving, gone);
        StableTrans(first, was, Seen(), quiet, leaving, gone);
      } else if count >= nloaded {
        AllRid(Seen(), irqVms, idle, lively, n);
      }
    }

    /** Whoever still holds the module is exiting, or is a lively task; of the tasks on the list, only after six rounds. */
    twostate predicate HeldByFew(n: Name)
      reads this
    {
      && (forall vm <- Holders(lua, n) :: vm !in irqVms && (vm in exits || exists t :: lively(t) && TaskHolds(Seen(), t, n) && tasks[t].vm == Some(vm)))
      && (NoTaskHolds(Seen(), idle, n) || rounds == old(rounds) + 6)
    }

    /** Everything but the end of lua_lsm_module_unregister. */
    method Drain(k: nat, n: Name) returns (count: nat)
      requires Unlocked() && k < |modules| && modules[k].name == n
      modifies this
      ensures Inv() && leaving == Some(n) && gone == None && removed == count && n in quiet
      ensures old(history) <= history && Now(history).ahead == SETTLED
      ensures k < |modules| == |old(modules)| && modules[k].life != Live && forall i :: 0 <= i < |modules| ==> modules[i].name == old(modules)[i].name
      ensures OnlyLively(Seen(), idle, lively, n) && NoIrqHolds(Seen(), irqVms, n) && IdleRid(Seen(), idle, lively, n)
      ensures NoTaskHolds(Seen(), idle, n) || rounds == old(rounds) + 6
    {
      hide Shows, LoadedExact, VmsOk, ExitsOk, HooksOk, QuietOk, Stable, NamesDistinct, Rely, OwnersOk, FreshOk, CalmOk, OnlyLively, NoTaskHolds, NoIrqHolds, IdleRid;
      StartLeaving(k);
      RelySame(old(modules)[k := old(modules)[k].(life := modules[k].life)], modules);
      ghost var first := Seen();
      count := RemoveEverywhere(k, n);
      SameAt(first, Seen(), quiet, leaving, gone);
    }

    /**
     lua_lsm_module_unregister. `nbusy` has no value until tasks_lvm_remove_module has been called; that it is
     never read before, and that no more removals are counted than the module was loaded, is proved on the way.
     */
    method Unregister(n: Name) returns (err: Errno)
      requires Unlocked()
      modifies this
      ensures Unlocked() && old(history) <= history
      ensures err in {OK, ENOENT, EBUSY} && (err == ENOENT <==> !Registered(old(modules), n))
      ensures err == ENOENT ==> modules == old(modules) && lua == old(lua)
      ensures err == OK ==> !Registered(modules, n) && NobodyHolds(n)
      ensures err == EBUSY ==> Holders(lua, n) != {} && exists k: nat :: IsAt(modules, k, n) && modules[k].life == Zombie
      ensures err == EBUSY ==> HeldByFew(n)
      ensures (forall t :: !lively(t)) && exits == map[] ==> err != EBUSY
      ensures forall m: Name :: m != n ==> (Registered(modules, m) <==> Registered(old(modules), m))
    {
      hide Shows, LoadedExact, VmsOk, ExitsOk, HooksOk, QuietOk, Stable, NamesDistinct, Rely, OwnersOk, FreshOk, CalmOk, OnlyLively, NoTaskHolds, NoIrqHolds, IdleRid, Registered, TaskHolds;
      var k := Find(n);
      if k == |modules| {
        return ENOENT;
      }
      var count := Drain(k, n);
      WhoHolds(Seen(), irqVms, idle, lively, n);
      ghost var last := Seen();
      err := FinishLeaving(k, count);
      NamesAfter(old(modules), last.modules, modules, k, err == OK);
      if err == EBUSY {
        assert IsAt(modules, k, n);
        SameHolders(last, Seen(), idle, n);
      }
    }
  }

  /** The first visit is still to come to every task that holds the module. */
  lemma VisitsStart(v: View, idle: set<Task>, lively: Task -> bool, n: Name)
    ensures OnlyLively(v, idle + (v.tasks.Keys - idle), lively, n) && NoTaskHolds(v, idle + (v.tasks.Keys - idle), n)
  {
  }

  lemma Visited(a: View, b: View, before: set<Task>, after: set<Task>, lively: Task -> bool, t: Task, n: Name, busy: bool,
                quiet: set<Name>, leaving: Option<Name>, gone: Option<Name>)
    requires Stable(a, b, quiet, leaving, gone) && n in quiet && before <= after + {t}
    requires if busy then lively(t) else !TaskHolds(b, t, n)
    ensures OnlyLively(a, before, lively, n) ==> OnlyLively(b, after, lively, n)
    ensures NoTaskHolds(a, before, n) && !busy ==> NoTaskHolds(b, after, n)
  {
    hide TaskHolds, Stable;
    StableHolds(a, b, quiet, leaving, gone, n);
  }

  lemma NoIrqYet(v: View, none: set<Vm>, n: Name)
    requires none == {}
    ensures NoIrqHolds(v, none, n)
  {
  }

  lemma OneIrqLess(v: View, irqVms: set<Vm>, vm: Vm, n: Name)
    requires NoIrqHolds(v, irqVms, n) && !Holds(v.lua, vm, n)
    ensures NoIrqHolds(v, irqVms + {vm}, n)
  {
  }

  lemma NoIdleYet(v: View, none: set<Task>, lively: Task -> bool, n: Name)
    requires none == {}
    ensures IdleRid(v, none, lively, n)
  {
  }

  lemma OneIdleLess(v: View, idle: set<Task>, lively: Task -> bool, t: Task, n: Name)
    requires IdleRid(v, idle, lively, n) && (TaskHolds(v, t, n) ==> lively(t))
    ensures IdleRid(v, idle + {t}, lively, n)
  {
  }

  lemma SameHolders(a: View, b: View, idle: set<Task>, n: Name)
    requires b.lua == a.lua && b.tasks == a.tasks
    ensures forall t: Task :: TaskHolds(b, t, n) <==> TaskHolds(a, t, n)
    ensures NoTaskHolds(b, idle, n) <==> NoTaskHolds(a, idle, n)
  {
  }

  lemma NothingLoaded(lua: Loaded, irqVms: set<Vm>)
    requires lua.Keys == irqVms && forall vm <- lua :: lua[vm] == {}
    ensures LoadedExact([], lua, None, 0) && NamesDistinct([]) && QuietOk([], {}, None)
    ensures VmsOk(lua, map[], irqVms, [], {}) && ExitsOk([], lua, map[], None) && HooksOk(map[], 0, map[], irqVms, [], {})
  {
    forall n: Name ensures LoadedOne([], lua, None, 0, n) {
      assert Holders(lua, n) == {};
    }
  }

  lemma NothingHeld(v: View, irqVms: set<Vm>, lively: Task -> bool)
    requires v.tasks == map[] && forall vm <- v.lua :: v.lua[vm] == {}
    ensures OwnersOk(v.lua, v.tasks, v.exits.Keys, irqVms) && CalmOk(map[], {}, lively)
  {
  }

  lemma StillOwned(a: map<Task, Lvm>, b: map<Task, Lvm>, exiting: set<Vm>, irqVms: set<Vm>, vm: Vm)
    requires Owned(a, exiting, irqVms, vm) && forall t <- a :: t in b && b[t].vm == a[t].vm
    ensures Owned(b, exiting, irqVms, vm)
  {
  }

  lemma HookOwns(hooks: map<Reader, Hook>, next: Reader, tasks: map<Task, Lvm>, exiting: set<Vm>, irqVms: set<Vm>, modules: Modules,
                 quiet: set<Name>, r: Reader)
    requires HooksOk(hooks, next, tasks, irqVms, modules, quiet) && r in hooks
    ensures Owned(tasks, exiting, irqVms, hooks[r].vm)
  {
    assert HookOk(hooks[r], tasks, irqVms, modules, quiet);
  }

  lemma FreeEmpty(lua: Loaded, tasks: map<Task, Lvm>, irqVms: set<Vm>, pool: seq<Vm>, exiting: set<Vm>, t: Task, l: Lvm)
    requires t in tasks && l.vm.Some?
    requires l == tasks[t].(refcount := 1) || (IsFree(lua, tasks, irqVms, pool, exiting, l.vm.value) && tasks[t].vm.None?)
    ensures l.vm == tasks[t].vm || (tasks[t].vm.None? && IsEmpty(lua, l.vm.value))
  {
  }

  lemma NotMetSame(exits: Exits, gone: Option<Name>)
    ensures NotMet(exits, exits, gone)
  {
  }

  lemma CalmDirty(tasks: map<Task, Lvm>, running: set<Task>, lively: Task -> bool, t: Task)
    requires CalmOk(tasks, running, lively) && t in tasks
    ensures CalmOk(tasks[t := tasks[t].(dirty := true)], running, lively)
  {
  }

  /** A task's hook ends. */
  lemma Released(v: View, running: set<Task>, lively: Task -> bool, t: Task, l: Lvm, r: Reader, irqVms: set<Vm>,
                 quiet: set<Name>, leaving: Option<Name>, gone: Option<Name>)
    requires OwnersOk(v.lua, v.tasks, v.exits.Keys, irqVms) && CalmOk(v.tasks, running, lively)
    requires t in v.tasks && l == v.tasks[t].(refcount := 0)
    ensures Stable(v, v.(tasks := v.tasks[t := l], hooks := v.hooks - {r}), quiet, leaving, gone)
    ensures OwnersOk(v.lua, v.tasks[t := l], v.exits.Keys, irqVms) && CalmOk(v.tasks[t := l], running, lively)
  {
    hide Stable, OwnersOk, CalmOk;
    CalmSet(v.tasks, running, lively, t, l);
    TaskSet(v, t, l, irqVms, quiet, leaving, gone);
    StableEnd(v, v.(tasks := v.tasks[t := l]), r, quiet, leaving, gone);
  }

  /** A turn of a walk that takes a module off its count. */
  lemma TakenKeeps(v: View, k: nat, vm: Vm, e: Exit, leaving: Option<Name>, removed: nat, quiet: set<Name>, gone: Option<Name>,
                   history: seq<Board>, nhooks: map<nat, int>, active: int, done: nat, irqVms: set<Vm>, pool: seq<Vm>, nextVm: Vm)
    requires NamesDistinct(v.modules) && Increasing(v.modules) && Shows(history, v.modules, nhooks, active, done)
    requires LoadedExact(v.modules, v.lua, leaving, removed) && VmsOk(v.lua, v.tasks, irqVms, pool, v.exits.Keys)
    requires ExitsOk(v.modules, v.lua, v.exits, gone) && HooksOk(v.hooks, v.next, v.tasks, irqVms, v.modules, quiet)
    requires QuietOk(v.modules, quiet, leaving) && OwnersOk(v.lua, v.tasks, v.exits.Keys, irqVms) && FreshOk(v.lua, nextVm)
    requires vm in v.exits && k < |v.modules| && IsNext(v.modules, v.exits[vm].from, k) && vm in v.lua && v.modules[k].name in v.lua[vm]
    requires e == Exit(v.modules[k].stamp + 1, v.exits[vm].off + {v.modules[k].name})
    ensures var n := v.modules[k].name;
            var modules, lua, exits := WithLoaded(v.modules, k, -1), v.lua[vm := v.lua[vm] - {n}], v.exits[vm := e];
            && NamesDistinct(modules) && Shows(history, modules, nhooks, active, done) && LoadedExact(modules, lua, leaving, removed)
            && VmsOk(lua, v.tasks, irqVms, pool, exits.Keys) && ExitsOk(modules, lua, exits, gone) && QuietOk(modules, quiet, leaving)
            && HooksOk(v.hooks, v.next, v.tasks, irqVms, modules, quiet) && OwnersOk(lua, v.tasks, exits.Keys, irqVms) && FreshOk(lua, nextVm)
            && Stable(v, v.(modules := modules, lua := lua, exits := exits), quiet, leaving, gone)
  {
    hide Shows, LoadedExact, VmsOk, ExitsOk, HooksOk, QuietOk, Stable, NamesDistinct, Rely, OwnersOk, FreshOk, NotMet;
    var n := v.modules[k].name;
    var modules, lua, exits := WithLoaded(v.modules, k, -1), v.lua[vm := v.lua[vm] - {n}], v.exits[vm := e];
    TurnExit(v.modules, v.lua, v.exits, gone, vm, k);
    assert v.lua[vm] * {n} == {n} && exits.Keys == v.exits.Keys;
    ExitLua(v.lua, v.tasks, irqVms, pool, v.exits.Keys, vm, n);
    ExitKeepsExact(v.modules, k, v.lua, vm, leaving, removed);
    RelyFreed(v.modules, k, quiet);
    RelyKeeps(v.modules, modules, quiet, leaving, history, nhooks, active, done, v.hooks, v.next, v.tasks, irqVms);
    NotMetTaken(v.exits, vm, e, n, gone);
    LuaLess(v, modules, vm, n, exits, irqVms, quiet, leaving, gone);
    FreshSet(v.lua, vm, v.lua[vm] - {n}, nextVm);
    SameExits(v.modules, modules, lua, exits, gone);
  }

  lemma NothingShown(history: seq<Board>)
    requires history == [Board([], map[], 0, SETTLED, 0)]
    ensures Shows(history, [], map[], 0, 0) && Now(history).ahead == SETTLED
  {
  }

  lemma PutExits(modules: Modules, lua: Loaded, exits: Exits, gone: Option<Name>, vm: Vm)
    requires ExitsOk(modules, lua, exits, gone) && vm in lua && lua[vm] == {}
    ensures ExitsOk(modules, lua, exits - {vm}, gone) && ExitsOk(modules, lua - {vm}, exits - {vm}, gone)
  {
    LuaExits(modules, lua, lua, exits - {vm}, gone);
    LuaExits(modules, lua, lua - {vm}, exits - {vm}, gone);
  }

  lemma ExitLua(lua: Loaded, tasks: map<Task, Lvm>, irqVms: set<Vm>, pool: seq<Vm>, exiting: set<Vm>, vm: Vm, n: Name)
    requires VmsOk(lua, tasks, irqVms, pool, exiting) && vm in exiting
    ensures vm in lua && VmsOk(lua[vm := lua[vm] - {n}], tasks, irqVms, pool, exiting)
  {
    RemoveVms(lua, tasks, irqVms, pool, exiting, vm, n);
  }

  lemma ListedInOrder(history: seq<Board>, modules: Modules, nhooks: map<nat, int>, active: int, done: nat)
    requires Shows(history, modules, nhooks, active, done)
    ensures Increasing(modules) && forall k :: 0 <= k < |modules| ==> modules[k].stamp <= done
  {
    assert SameModules(modules, Bare(modules));
    assert Stamped(Last(history));
  }

  lemma SettledCount(modules: Modules, k: nat, lua: Loaded, removed: nat)
    requires NamesDistinct(modules) && k < |modules| && LoadedExact(modules, lua, Some(modules[k].name), removed)
    ensures modules[k].nloaded - removed == |Holders(lua, modules[k].name)|
  {
    SettleKeepsExact(modules, k, Zombie, lua, removed);
  }

  /** What stays true when a module that has left, and that no Lua state is counted for, is taken off the list. */
  lemma DelKeeps(modules: Modules, k: nat, lua: Loaded, removed: nat, quiet: set<Name>, exits: Exits,
                 hooks: map<Reader, Hook>, next: Reader, tasks: map<Task, Lvm>, irqVms: set<Vm>)
    requires NamesDistinct(modules) && k < |modules| && LoadedExact(modules, lua, Some(modules[k].name), removed)
    requires QuietOk(modules, quiet, Some(modules[k].name)) && HooksOk(hooks, next, tasks, irqVms, modules, quiet)
    requires modules[k].name in quiet && modules[k].nloaded == removed && ExitsOk(modules, lua, exits, None)
    ensures var n, rest := modules[k].name, modules[..k] + modules[k + 1..];
            && Holders(lua, n) == {} && NamesDistinct(rest) && LoadedExact(rest, lua, None, 0) && ExitsOk(rest, lua, exits, Some(n))
            && QuietOk(rest, quiet - {n}, None) && HooksOk(hooks, next, tasks, irqVms, rest, quiet - {n})
  {
    hide LoadedExact, ExitsOk, HooksOk, QuietOk, NamesDistinct;
    var z := modules[k].(nloaded := 0, life := Zombie);
    SettleKeepsExact(modules, k, Zombie, lua, removed);
    LifeKeeps(modules, k, z, quiet, hooks, next, tasks, irqVms);
    LifeQuiet(modules, k, z, quiet, Some(z.name), None);
    UnlistKeeps(modules[k := z], k, quiet, hooks, next, tasks, irqVms);
    UnlistKeepsExact(modules[k := z], k, lua);
    UnlistExits(modules, k, lua, exits);
    assert modules[k := z][..k] + modules[k := z][k + 1..] == modules[..k] + modules[k + 1..];
  }

  /** After the second grace period the module that is gone can be freed. */
  lemma AllFreed(modules: Modules, lua: Loaded, exits: Exits, gone: Option<Name>, leaving: Option<Name>, removed: nat)
    requires LoadedExact(modules, lua, leaving, removed) && ExitsOk(modules, lua, exits, gone) && gone.Some?
    requires forall vm <- exits :: gone.value !in exits[vm].off
    ensures ExitsOk(modules, lua, exits, None) && Holders(lua, gone.value) == {} && !Registered(modules, gone.value)
  {
    forall vm <- exits ensures ExitOk(modules, lua[vm], exits[vm], None) {
      assert ExitOk(modules, lua[vm], exits[vm], gone);
    }
  }

  /** What hooks can see now. */
  ghost function Now(history: seq<Board>): Board
  {
    if history == [] then Board([], map[], 0, SETTLED, 0) else Last(history)
  }

  /** What a hook sees while it runs is a part of what could be seen. */
  lemma HookRuns(l: Lsm, from: nat, to: nat)
    requires l.Inv() && from < to <= |l.history|
    ensures Run(l.history[from..to])
  {
    RunPart(l.history, from, to);
  }

  /** The last board is what the fields say. */
  ghost predicate Shows(history: seq<Board>, modules: Modules, nhooks: map<nat, int>, active: int, done: nat)
  {
    && history != [] && Run(history)
    && Last(history).modules == Bare(modules) && Last(history).nhooks == nhooks && Last(history).active == active && Last(history).done == done
  }

  lemma RunOk(history: seq<Board>)
    requires Run(history)
    ensures history != [] && BoardOk(Last(history))
  {
  }

  lemma SameAppend(a: Modules, b: Modules, m: Module, c: Modules)
    requires SameModules(a, b) && SameModules(b + [m], c)
    ensures SameModules(a + [m], c)
  {
  }

  lemma RelyAt(a: Modules, b: Modules, quiet: set<Name>)
    requires Rely(a, b, quiet)
    ensures |a| == |b| && forall k :: 0 <= k < |a| ==> b[k].name == a[k].name && b[k].life == a[k].life
  {
  }

  lemma RelyModules(a: Modules, b: Modules, quiet: set<Name>)
    requires Rely(a, b, quiet)
    ensures SameModules(a, b)
  {
  }

  /** Nothing but the module itself has come or gone. */
  lemma NamesAfter(before: Modules, last: Modules, after: Modules, k: nat, freed: bool)
    requires k < |before| == |last| && forall i :: 0 <= i < |before| ==> last[i].name == before[i].name
    requires if freed then SameModules(last[..k] + last[k + 1..], after)
             else |after| == |last| && forall i :: 0 <= i < |last| ==> after[i].name == last[i].name
    ensures forall m: Name :: m != before[k].name ==> (Registered(after, m) <==> Registered(before, m))
  {
    hide Registered;
    NamesKept(before, last);
    if freed {
      NamesWithout(last, k);
      NamesKept(last[..k] + last[k + 1..], after);
    } else {
      NamesKept(last, after);
    }
  }

  lemma NamesKept(a: Modules, b: Modules)
    requires |a| == |b| && forall k :: 0 <= k < |a| ==> b[k].name == a[k].name
    ensures forall n: Name :: Registered(a, n) <==> Registered(b, n)
  {
    forall n: Name ensures Registered(a, n) <==> Registered(b, n) {
      if Registered(a, n) {
        var k: nat :| IsAt(a, k, n);
        assert IsAt(b, k, n);
      }
      if Registered(b, n) {
        var k: nat :| IsAt(b, k, n);
        assert IsAt(a, k, n);
      }
    }
  }

  lemma NamesWithout(a: Modules, k: nat)
    requires k < |a|
    ensures forall n: Name :: n != a[k].name ==> (Registered(a[..k] + a[k + 1..], n) <==> Registered(a, n))
  {
    var b := a[..k] + a[k + 1..];
    forall n: Name | n != a[k].name ensures Registered(a, n) <==> Registered(b, n) {
      if Registered(a, n) {
        var i: nat :| IsAt(a, i, n);
        assert IsAt(b, if i < k then i else i - 1, n);
      }
      if Registered(b, n) {
        var i: nat :| IsAt(b, i, n);
        assert IsAt(a, if i < k then i else i + 1, n);
      }
    }
  }

  /** A module that cannot be loaded any more: its counter has only gone down, and not below the removals. */
  lemma LoadedBounds(first: View, now: View, k: nat, lua: Loaded, removed: nat, quiet: set<Name>, gone: Option<Name>)
    requires k < |now.modules| && now.modules[k].name in quiet && Stable(first, now, quiet, Some(now.modules[k].name), gone)
    requires NamesDistinct(first.modules) && NamesDistinct(now.modules) && LoadedExact(now.modules, lua, Some(now.modules[k].name), removed)
    ensures k < |first.modules| == |now.modules| && removed <= now.modules[k].nloaded <= first.modules[k].nloaded
  {
    NLoadedAt(first.modules, k);
    NLoadedAt(now.modules, k);
    assert LoadedOne(now.modules, lua, Some(now.modules[k].name), removed, now.modules[k].name);
  }

  lemma SameAt(a: View, b: View, quiet: set<Name>, leaving: Option<Name>, gone: Option<Name>)
    requires Stable(a, b, quiet, leaving, gone)
    ensures |a.modules| == |b.modules|
    ensures forall k :: 0 <= k < |a.modules| ==> b.modules[k].name == a.modules[k].name && b.modules[k].life == a.modules[k].life
  {
  }

  lemma KnownLife(modules: Modules, k: nat, quiet: set<Name>, leaving: Option<Name>)
    requires QuietOk(modules, quiet, leaving) && k < |modules|
    ensures LifeOk(modules[k], quiet, leaving)
  {
  }

  lemma RelySame(a: Modules, b: Modules)
    requires Rely(a, b, {})
    ensures |a| == |b| && forall k :: 0 <= k < |a| ==> b[k].name == a[k].name && b[k].life == a[k].life
  {
  }

  lemma LeavingKeepsExact(modules: Modules, k: nat, m: Module, lua: Loaded, before: nat)
    requires NamesDistinct(modules) && k < |modules| && m == modules[k].(life := m.life) && LoadedExact(modules, lua, None, before)
    ensures LoadedExact(modules[k := m], lua, Some(m.name), 0)
  {
    var modules' := modules[k := m];
    NLoadedAt(modules, k);
    forall n: Name ensures LoadedOne(modules', lua, Some(m.name), 0, n) {
      assert LoadedOne(modules, lua, None, before, n);
      NLoadedSet(modules, k, m, n);
    }
    forall n: Name ensures Registered(modules', n) <==> Registered(modules, n) {
      RegisteredSet(modules, k, m, n);
    }
  }

  lemma IrqLua(lua: Loaded, tasks: map<Task, Lvm>, irqVms: set<Vm>, pool: seq<Vm>, exiting: set<Vm>, vm: Vm)
    requires VmsOk(lua, tasks, irqVms, pool, exiting) && vm in irqVms
    ensures vm in lua
  {
  }

  lemma OwnLua(lua: Loaded, tasks: map<Task, Lvm>, irqVms: set<Vm>, pool: seq<Vm>, exiting: set<Vm>, t: Task)
    requires VmsOk(lua, tasks, irqVms, pool, exiting) && t in tasks
    ensures tasks[t].vm.Some? ==> tasks[t].vm.value in lua
  {
    assert TaskOk(lua, tasks[t], irqVms, pool);
  }

  lemma OldHooks(hooks: map<Reader, Hook>, next: Reader, tasks: map<Task, Lvm>, irqVms: set<Vm>, modules: Modules, quiet: set<Name>)
    requires HooksOk(hooks, next, tasks, irqVms, modules, quiet)
    ensures forall r <- hooks :: r < next
  {
  }

  lemma PickedLoadable(hooks: map<Reader, Hook>, next: Reader, tasks: map<Task, Lvm>, irqVms: set<Vm>, modules: Modules, quiet: set<Name>, r: Reader)
    requires HooksOk(hooks, next, tasks, irqVms, modules, quiet) && r in hooks
    ensures hooks[r].task.Some? ==> hooks[r].task.value in tasks
    ensures hooks[r].picked.Some? ==> Registered(modules, hooks[r].picked.value) && hooks[r].picked.value !in quiet
  {
    assert HookOk(hooks[r], tasks, irqVms, modules, quiet);
  }

  lemma RelyKeeps(a: Modules, b: Modules, quiet: set<Name>, leaving: Option<Name>, history: seq<Board>, nhooks: map<nat, int>, active: int, done: nat,
                  hooks: map<Reader, Hook>, next: Reader, tasks: map<Task, Lvm>, irqVms: set<Vm>)
    requires Rely(a, b, quiet) && NamesDistinct(a) && Shows(history, a, nhooks, active, done)
    requires QuietOk(a, quiet, leaving) && HooksOk(hooks, next, tasks, irqVms, a, quiet)
    ensures NamesDistinct(b) && Shows(history, b, nhooks, active, done)
    ensures QuietOk(b, quiet, leaving) && HooksOk(hooks, next, tasks, irqVms, b, quiet)
  {
    SameModulesKeep(a, b, quiet, leaving, hooks, next, tasks, irqVms);
    BareSame(a, b);
  }
}
