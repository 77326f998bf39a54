/**
 The state of the Lua LSM (lsm.c): registered modules, Lua states and who runs them, and what is
 always true of it.

 A Lua state is the set of the modules that its _MODULES table holds. A running hook is a reader of
 modules_ss; it may have found a module to be live, and may then load it.
 */
module LuaState {
  import opened Basics

  type Name = string
  type Vm = nat
  type Task = nat
  type Reader = nat

  datatype Life = Live | Going | Zombie

  /** `stamp` tells registrations apart, and orders the list by them. */
  datatype Module = Module(name: Name, hooks: set<nat>, life: Life, nloaded: int, stamp: nat)

  /** struct lvm_state of a task; `vm` is its field L. */
  datatype Lvm = Lvm(vm: Option<Vm>, refcount: nat, dirty: bool)

  /** An invocation of a hook: the Lua state that it runs in, the task if it is in one, and the live module that it is at. */
  datatype Hook = Hook(vm: Vm, task: Option<Task>, picked: Option<Name>)

  type Modules = seq<Module>

  type Loaded = map<Vm, set<Name>>

  // ---------------------------------------------------------------- modules

  ghost predicate NamesDistinct(modules: Modules)
  {
    forall i, j :: 0 <= i < j < |modules| ==> modules[i].name != modules[j].name
  }

  predicate IsAt(modules: Modules, k: nat, n: Name)
  {
    k < |modules| && modules[k].name == n
  }

  ghost predicate Registered(modules: Modules, n: Name)
  {
    exists k: nat :: IsAt(modules, k, n)
  }

  function NLoaded(modules: Modules, n: Name): int
  {
    if modules == [] then 0 else if modules[0].name == n then modules[0].nloaded else NLoaded(modules[1..], n)
  }

  lemma {:induction false} NLoadedAt(modules: Modules, k: nat)
    requires NamesDistinct(modules) && k < |modules|
    ensures NLoaded(modules, modules[k].name) == modules[k].nloaded
  {
    if k > 0 {
      NLoadedAt(modules[1..], k - 1);
    }
  }

  lemma {:induction false} NLoadedAbsent(modules: Modules, n: Name)
    requires !Registered(modules, n)
    ensures NLoaded(modules, n) == 0
  {
    if modules != [] {
      assert !IsAt(modules, 0, n);
      forall k: nat ensures !IsAt(modules[1..], k, n) {
        assert !IsAt(modules, k + 1, n);
      }
      NLoadedAbsent(modules[1..], n);
    }
  }

  /** Same modules in the same order, but for how often they are loaded. */
  ghost predicate SameModules(a: Modules, b: Modules)
  {
    |a| == |b| && forall k :: 0 <= k < |a| ==> b[k] == a[k].(nloaded := b[k].nloaded)
  }

  lemma SameRegistered(a: Modules, b: Modules)
    requires SameModules(a, b)
    ensures NamesDistinct(a) ==> NamesDistinct(b)
    ensures forall n: Name :: Registered(a, n) <==> Registered(b, n)
  {
    forall k: nat, n: Name ensures IsAt(a, k, n) <==> IsAt(b, k, n) {
    }
    forall n: Name ensures Registered(a, n) <==> Registered(b, n) {
      if Registered(a, n) {
        var k: nat :| IsAt(a, k, n);
        assert IsAt(b, k, n);
      }
      if Registered(b, n) {
        var k: nat :| IsAt(b, k, n);
        assert IsAt(a, k, n);
      }
    }
  }

  // ---------------------------------------------------------------- who holds what

  function Holders(lua: Loaded, n: Name): set<Vm>
  {
    set vm | vm in lua && n in lua[vm]
  }

  /** How many removals unregister has counted, but not yet taken off. */
  function Removed(leaving: Option<Name>, removed: nat, n: Name): nat
  {
    if leaving == Some(n) then removed else 0
  }

  ghost predicate LoadedOne(modules: Modules, lua: Loaded, leaving: Option<Name>, removed: nat, n: Name)
  {
    NLoaded(modules, n) - Removed(leaving, removed, n) == |Holders(lua, n)|
  }

  /** nloaded minus the removals counted so far is the number of Lua states that hold the module. */
  ghost predicate LoadedExact(modules: Modules, lua: Loaded, leaving: Option<Name>, removed: nat)
  {
    && (forall n: Name :: LoadedOne(modules, lua, leaving, removed, n))
    && (forall vm, n | vm in lua && n in lua[vm] :: Registered(modules, n))
  }

  lemma HoldersAdded(lua: Loaded, vm: Vm, n: Name, k: Name)
    requires vm in lua && n !in lua[vm]
    ensures |Holders(lua[vm := lua[vm] + {n}], k)| == |Holders(lua, k)| + if k == n then 1 else 0
  {
    if k == n {
      assert Holders(lua[vm := lua[vm] + {n}], k) == Holders(lua, k) + {vm};
    } else {
      assert Holders(lua[vm := lua[vm] + {n}], k) == Holders(lua, k);
    }
  }

  lemma HoldersRemoved(lua: Loaded, vm: Vm, n: Name, k: Name)
    requires vm in lua && n in lua[vm]
    ensures |Holders(lua[vm := lua[vm] - {n}], k)| == |Holders(lua, k)| - if k == n then 1 else 0
  {
    if k == n {
      assert Holders(lua, k) == Holders(lua[vm := lua[vm] - {n}], k) + {vm};
    } else {
      assert Holders(lua[vm := lua[vm] - {n}], k) == Holders(lua, k);
    }
  }

  /** A Lua state without modules comes or goes. */
  lemma HoldersEmpty(lua: Loaded, vm: Vm, k: Name)
    requires vm in lua ==> lua[vm] == {}
    ensures Holders(lua[vm := {}], k) == Holders(lua, k) == Holders(lua - {vm}, k)
  {
  }

  // ---------------------------------------------------------------- Lua states and their users

  /**
   Each Lua state belongs to one task, to one CPU's softirqs, to the pool, or to a task that is exiting. States
   in the pool hold no module, and neither does a task's that is not marked dirty.
   */
  ghost predicate VmsOk(lua: Loaded, tasks: map<Task, Lvm>, irqVms: set<Vm>, pool: seq<Vm>, exiting: set<Vm>)
  {
    && (forall t <- tasks :: TaskOk(lua, tasks[t], irqVms, pool))
    && (forall t, t' | t in tasks && t' in tasks && t != t' && tasks[t].vm.Some? :: tasks[t].vm != tasks[t'].vm)
    && (forall vm <- irqVms :: vm in lua && vm !in pool)
    && (forall k :: 0 <= k < |pool| ==> pool[k] in lua && lua[pool[k]] == {})
    && (forall i, j :: 0 <= i < j < |pool| ==> pool[i] != pool[j])
    && (forall vm <- exiting :: vm in lua && vm !in irqVms && vm !in pool && forall t <- tasks :: tasks[t].vm != Some(vm))
  }

  ghost predicate TaskOk(lua: Loaded, l: Lvm, irqVms: set<Vm>, pool: seq<Vm>)
  {
    l.vm.Some? ==> l.vm.value in lua && l.vm.value !in irqVms && l.vm.value !in pool && (!l.dirty ==> lua[l.vm.value] == {})
  }

  /** An empty Lua state that belongs to no one. */
  ghost predicate IsFree(lua: Loaded, tasks: map<Task, Lvm>, irqVms: set<Vm>, pool: seq<Vm>, exiting: set<Vm>, vm: Vm)
  {
    vm in lua && lua[vm] == {} && vm !in irqVms && vm !in pool && vm !in exiting && forall t <- tasks :: tasks[t].vm != Some(vm)
  }

  /** A running hook has its Lua state to itself, as far as tasks are concerned; what it picked was live when it began. */
  ghost predicate HookOk(h: Hook, tasks: map<Task, Lvm>, irqVms: set<Vm>, modules: Modules, quiet: set<Name>)
  {
    && (h.task.Some? ==> h.task.value in tasks && tasks[h.task.value].vm == Some(h.vm) && tasks[h.task.value].refcount == 1)
    && (h.task.None? ==> h.vm in irqVms)
    && (h.picked.Some? ==> Registered(modules, h.picked.value) && h.picked.value !in quiet)
  }

  ghost predicate HooksOk(hooks: map<Reader, Hook>, next: Reader, tasks: map<Task, Lvm>, irqVms: set<Vm>, modules: Modules, quiet: set<Name>)
  {
    && (forall r <- hooks :: r < next && HookOk(hooks[r], tasks, irqVms, modules, quiet))
    && (forall r, r' | r in hooks && r' in hooks && r != r' && hooks[r].task.Some? :: hooks[r].task != hooks[r'].task)
    && (forall t <- tasks :: tasks[t].refcount <= 1)
  }

  /** After synchronize_srcu on a module that is not live any more, no running hook can still load it. */
  ghost predicate QuietOk(modules: Modules, quiet: set<Name>, leaving: Option<Name>)
  {
    && (forall k :: 0 <= k < |modules| ==> LifeOk(modules[k], quiet, leaving))
    && (forall n <- quiet :: Registered(modules, n))
    && (leaving.Some? ==> Registered(modules, leaving.value))
  }

  predicate LifeOk(m: Module, quiet: set<Name>, leaving: Option<Name>)
  {
    match m.life
    case Live => m.name !in quiet && leaving != Some(m.name)
    case Going => leaving == Some(m.name)
    case Zombie => m.name in quiet
  }

  // ---------------------------------------------------------------- changes of the list

  function WithLoaded(modules: Modules, k: nat, delta: int): Modules
    requires k < |modules|
  {
    modules[k := modules[k].(nloaded := modules[k].nloaded + delta)]
  }

  lemma {:induction false} NLoadedSet(modules: Modules, k: nat, m: Module, n: Name)
    requires NamesDistinct(modules) && k < |modules| && m.name == modules[k].name
    ensures NLoaded(modules[k := m], n) == if n == m.name then m.nloaded else NLoaded(modules, n)
  {
    if k == 0 {
      assert modules[k := m][1..] == modules[1..];
    } else {
      NLoadedSet(modules[1..], k - 1, m, n);
      assert modules[k := m][1..] == modules[1..][k - 1 := m];
    }
  }

  lemma {:induction false} NLoadedAppend(modules: Modules, m: Module, n: Name)
    requires m.nloaded == 0
    ensures NLoaded(modules + [m], n) == NLoaded(modules, n)
  {
    if modules != [] {
      NLoadedAppend(modules[1..], m, n);
      assert (modules + [m])[1..] == modules[1..] + [m];
    }
  }

  lemma {:induction false} NLoadedWithout(modules: Modules, k: nat, n: Name)
    requires NamesDistinct(modules) && k < |modules|
    ensures NLoaded(modules[..k] + modules[k + 1..], n) == if n == modules[k].name then 0 else NLoaded(modules, n)
  {
    var rest := modules[..k] + modules[k + 1..];
    if k == 0 {
      assert rest == modules[1..];
      if n == modules[0].name {
        assert !Registered(rest, n) by {
          forall i: nat ensures !IsAt(rest, i, n) { assert i < |rest| ==> rest[i] == modules[i + 1]; }
        }
        NLoadedAbsent(rest, n);
      }
    } else {
      NLoadedWithout(modules[1..], k - 1, n);
      assert rest[0] == modules[0];
      assert rest[1..] == modules[1..][..k - 1] + modules[1..][k..];
    }
  }

  lemma IsRegistered(modules: Modules, k: nat)
    requires k < |modules|
    ensures Registered(modules, modules[k].name)
  {
    assert IsAt(modules, k, modules[k].name);
  }

  // ---------------------------------------------------------------- what keeps LoadedExact

  lemma LoadKeepsExact(modules: Modules, k: nat, lua: Loaded, vm: Vm, leaving: Option<Name>, removed: nat)
    requires LoadedExact(modules, lua, leaving, removed) && NamesDistinct(modules) && k < |modules|
    requires vm in lua && modules[k].name !in lua[vm]
    ensures LoadedExact(WithLoaded(modules, k, 1), lua[vm := lua[vm] + {modules[k].name}], leaving, removed)
  {
    var modules', lua' := WithLoaded(modules, k, 1), lua[vm := lua[vm] + {modules[k].name}];
    SameRegistered(modules, modules');
    IsRegistered(modules, k);
    NLoadedAt(modules, k);
    forall n: Name ensures LoadedOne(modules', lua', leaving, removed, n) {
      assert LoadedOne(modules, lua, leaving, removed, n);
      NLoadedSet(modules, k, modules'[k], n);
      HoldersAdded(lua, vm, modules[k].name, n);
    }
  }

  lemma RemoveKeepsExact(modules: Modules, lua: Loaded, vm: Vm, n: Name, removed: nat)
    requires LoadedExact(modules, lua, Some(n), removed) && vm in lua && n in lua[vm]
    ensures LoadedExact(modules, lua[vm := lua[vm] - {n}], Some(n), removed + 1)
  {
    var lua', more := lua[vm := lua[vm] - {n}], removed + 1;
    forall k: Name ensures LoadedOne(modules, lua', Some(n), more, k) {
      assert LoadedOne(modules, lua, Some(n), removed, k);
      HoldersRemoved(lua, vm, n, k);
    }
  }

  /** lua_modules_free takes a module that an exiting task's Lua state holds off its count. */
  lemma ExitKeepsExact(modules: Modules, k: nat, lua: Loaded, vm: Vm, leaving: Option<Name>, removed: nat)
    requires LoadedExact(modules, lua, leaving, removed) && NamesDistinct(modules) && k < |modules|
    requires vm in lua && modules[k].name in lua[vm]
    ensures LoadedExact(WithLoaded(modules, k, -1), lua[vm := lua[vm] - {modules[k].name}], leaving, removed)
  {
    var modules', lua' := WithLoaded(modules, k, -1), lua[vm := lua[vm] - {modules[k].name}];
    SameRegistered(modules, modules');
    NLoadedAt(modules, k);
    forall n: Name ensures LoadedOne(modules', lua', leaving, removed, n) {
      assert LoadedOne(modules, lua, leaving, removed, n);
      NLoadedSet(modules, k, modules'[k], n);
      HoldersRemoved(lua, vm, modules[k].name, n);
    }
  }

  /** A Lua state without modules is made, or freed. */
  lemma EmptyKeepsExact(modules: Modules, lua: Loaded, vm: Vm, leaving: Option<Name>, removed: nat)
    requires LoadedExact(modules, lua, leaving, removed) && (vm in lua ==> lua[vm] == {})
    ensures LoadedExact(modules, lua[vm := {}], leaving, removed)
    ensures LoadedExact(modules, lua - {vm}, leaving, removed)
  {
    var more, less := lua[vm := {}], lua - {vm};
    forall n: Name ensures LoadedOne(modules, more, leaving, removed, n) && LoadedOne(modules, less, leaving, removed, n) {
      assert LoadedOne(modules, lua, leaving, removed, n);
      HoldersEmpty(lua, vm, n);
    }
  }

  lemma RegisterKeepsExact(modules: Modules, m: Module, lua: Loaded, leaving: Option<Name>, removed: nat)
    requires LoadedExact(modules, lua, leaving, removed) && m.nloaded == 0
    ensures LoadedExact(modules + [m], lua, leaving, removed)
  {
    forall n: Name ensures LoadedOne(modules + [m], lua, leaving, removed, n) {
      assert LoadedOne(modules, lua, leaving, removed, n);
      NLoadedAppend(modules, m, n);
    }
    forall n: Name | Registered(modules, n) ensures Registered(modules + [m], n) {
      var k: nat :| IsAt(modules, k, n);
      assert IsAt(modules + [m], k, n);
    }
  }

  /** Taking the counted removals off is what makes nloaded exact again. */
  lemma SettleKeepsExact(modules: Modules, k: nat, life: Life, lua: Loaded, removed: nat)
    requires NamesDistinct(modules) && k < |modules| && LoadedExact(modules, lua, Some(modules[k].name), removed)
    ensures LoadedExact(modules[k := modules[k].(nloaded := modules[k].nloaded - removed, life := life)], lua, None, 0)
    ensures modules[k].nloaded - removed == |Holders(lua, modules[k].name)|
  {
    var n := modules[k].name;
    var modules' := modules[k := modules[k].(nloaded := modules[k].nloaded - removed, life := life)];
    NLoadedAt(modules, k);
    assert LoadedOne(modules, lua, Some(n), removed, n);
    forall x: Name ensures LoadedOne(modules', lua, None, 0, x) {
      assert LoadedOne(modules, lua, Some(n), removed, x);
      NLoadedSet(modules, k, modules'[k], x);
    }
    forall x: Name | Registered(modules, x) ensures Registered(modules', x) {
      var i: nat :| IsAt(modules, i, x);
      assert IsAt(modules', i, x);
    }
  }

  lemma UnlistKeepsExact(modules: Modules, k: nat, lua: Loaded)
    requires NamesDistinct(modules) && k < |modules| && LoadedExact(modules, lua, None, 0) && Holders(lua, modules[k].name) == {}
    ensures LoadedExact(modules[..k] + modules[k + 1..], lua, None, 0)
  {
    var rest := modules[..k] + modules[k + 1..];
    forall n: Name ensures LoadedOne(rest, lua, None, 0, n) {
      assert LoadedOne(modules, lua, None, 0, n);
      NLoadedWithout(modules, k, n);
    }
    forall vm, n | vm in lua && n in lua[vm] ensures Registered(rest, n) {
      assert vm in Holders(lua, n) && Registered(modules, n);
      var i: nat :| IsAt(modules, i, n);
      assert i != k;
      assert IsAt(rest, if i < k then i else i - 1, n);
    }
  }

  // ---------------------------------------------------------------- what keeps the rest

  lemma SameModulesKeep(a: Modules, b: Modules, quiet: set<Name>, leaving: Option<Name>,
                        hooks: map<Reader, Hook>, next: Reader, tasks: map<Task, Lvm>, irqVms: set<Vm>)
    requires SameModules(a, b) && NamesDistinct(a)
    requires QuietOk(a, quiet, leaving) && HooksOk(hooks, next, tasks, irqVms, a, quiet)
    ensures NamesDistinct(b) && QuietOk(b, quiet, leaving) && HooksOk(hooks, next, tasks, irqVms, b, quiet)
  {
    SameRegistered(a, b);
  }

  /** A hook starts in a task, which may have got its Lua state just now. */
  lemma StartKeeps(lua: Loaded, tasks: map<Task, Lvm>, irqVms: set<Vm>, pool: seq<Vm>, exiting: set<Vm>, hooks: map<Reader, Hook>, next: Reader,
                   modules: Modules, quiet: set<Name>, t: Task, l: Lvm)
    requires VmsOk(lua, tasks, irqVms, pool, exiting) && HooksOk(hooks, next, tasks, irqVms, modules, quiet)
    requires t in tasks && tasks[t].refcount == 0 && l.vm.Some? && l.refcount == 1
    requires l == tasks[t].(refcount := 1)
      || (IsFree(lua, tasks, irqVms, pool, exiting, l.vm.value) && tasks[t].vm.None?)
    ensures VmsOk(lua, tasks[t := l], irqVms, pool, exiting) && next !in hooks
    ensures tasks[t].vm.None? ==> l.vm.value in lua && lua[l.vm.value] == {}
    ensures HooksOk(hooks[next := Hook(l.vm.value, Some(t), None)], next + 1, tasks[t := l], irqVms, modules, quiet)
  {
  }

  /** A new task has no Lua state yet. */
  lemma InitKeeps(lua: Loaded, tasks: map<Task, Lvm>, irqVms: set<Vm>, pool: seq<Vm>, exiting: set<Vm>, hooks: map<Reader, Hook>, next: Reader,
                  modules: Modules, quiet: set<Name>, t: Task)
    requires VmsOk(lua, tasks, irqVms, pool, exiting) && HooksOk(hooks, next, tasks, irqVms, modules, quiet) && t !in tasks
    ensures VmsOk(lua, tasks[t := Lvm(None, 0, false)], irqVms, pool, exiting)
    ensures HooksOk(hooks, next, tasks[t := Lvm(None, 0, false)], irqVms, modules, quiet)
  {
  }

  /** The first Lua state of the pool is free to be taken. */
  lemma TakeVms(lua: Loaded, tasks: map<Task, Lvm>, irqVms: set<Vm>, pool: seq<Vm>, exiting: set<Vm>)
    requires VmsOk(lua, tasks, irqVms, pool, exiting) && pool != []
    ensures VmsOk(lua, tasks, irqVms, pool[1..], exiting) && IsFree(lua, tasks, irqVms, pool[1..], exiting, pool[0])
  {
    forall t <- tasks ensures TaskOk(lua, tasks[t], irqVms, pool[1..]) && tasks[t].vm != Some(pool[0]) {
      assert TaskOk(lua, tasks[t], irqVms, pool);
    }
  }

  lemma NewVms(lua: Loaded, tasks: map<Task, Lvm>, irqVms: set<Vm>, pool: seq<Vm>, exiting: set<Vm>, vm: Vm)
    requires VmsOk(lua, tasks, irqVms, pool, exiting) && vm !in lua
    ensures VmsOk(lua[vm := {}], tasks, irqVms, pool, exiting) && IsFree(lua[vm := {}], tasks, irqVms, pool, exiting, vm)
  {
    forall t <- tasks ensures TaskOk(lua[vm := {}], tasks[t], irqVms, pool) && tasks[t].vm != Some(vm) {
      assert TaskOk(lua, tasks[t], irqVms, pool);
    }
  }

  /** The end of a hook. */
  lemma EndKeeps(lua: Loaded, tasks: map<Task, Lvm>, irqVms: set<Vm>, pool: seq<Vm>, exiting: set<Vm>, hooks: map<Reader, Hook>, next: Reader,
                 modules: Modules, quiet: set<Name>, r: Reader)
    requires VmsOk(lua, tasks, irqVms, pool, exiting) && HooksOk(hooks, next, tasks, irqVms, modules, quiet) && r in hooks
    ensures hooks[r].task.Some? ==>
      hooks[r].task.value in tasks && tasks[hooks[r].task.value].refcount == 1
    ensures var tasks' := if hooks[r].task.Some? then tasks[hooks[r].task.value := tasks[hooks[r].task.value].(refcount := 0)] else tasks;
            VmsOk(lua, tasks', irqVms, pool, exiting) && HooksOk(hooks - {r}, next, tasks', irqVms, modules, quiet)
  {
    assert HookOk(hooks[r], tasks, irqVms, modules, quiet);
  }

  lemma LoadVms(lua: Loaded, tasks: map<Task, Lvm>, irqVms: set<Vm>, pool: seq<Vm>, exiting: set<Vm>, hooks: map<Reader, Hook>, next: Reader,
                modules: Modules, quiet: set<Name>, r: Reader, n: Name)
    requires VmsOk(lua, tasks, irqVms, pool, exiting) && HooksOk(hooks, next, tasks, irqVms, modules, quiet) && r in hooks
    ensures var tasks' := if hooks[r].task.Some? then tasks[hooks[r].task.value := tasks[hooks[r].task.value].(dirty := true)] else tasks;
            && hooks[r].vm in lua && hooks[r].vm !in exiting
            && VmsOk(lua, tasks', irqVms, pool, exiting)
            && VmsOk(lua[hooks[r].vm := lua[hooks[r].vm] + {n}], tasks', irqVms, pool, exiting)
            && HooksOk(hooks, next, tasks', irqVms, modules, quiet)
  {
    assert HookOk(hooks[r], tasks, irqVms, modules, quiet);
  }

  /** A task goes; its Lua state is then its own no longer. */
  lemma ExitVms(lua: Loaded, tasks: map<Task, Lvm>, irqVms: set<Vm>, pool: seq<Vm>, exiting: set<Vm>, hooks: map<Reader, Hook>, next: Reader,
                modules: Modules, quiet: set<Name>, t: Task)
    requires VmsOk(lua, tasks, irqVms, pool, exiting) && HooksOk(hooks, next, tasks, irqVms, modules, quiet)
    requires t in tasks && tasks[t].refcount == 0
    ensures tasks[t].vm.Some? ==>
      var vm := tasks[t].vm.value;
      vm in lua && vm !in exiting && (!tasks[t].dirty ==> lua[vm] == {}) && VmsOk(lua, tasks - {t}, irqVms, pool, exiting + {vm})
    ensures VmsOk(lua, tasks - {t}, irqVms, pool, exiting) && HooksOk(hooks, next, tasks - {t}, irqVms, modules, quiet)
  {
    assert TaskOk(lua, tasks[t], irqVms, pool);
  }

  /** The Lua state of an exiting task, with no module in it, goes to the pool or away. */
  lemma PutVms(lua: Loaded, tasks: map<Task, Lvm>, irqVms: set<Vm>, pool: seq<Vm>, exiting: set<Vm>, vm: Vm)
    requires VmsOk(lua, tasks, irqVms, pool, exiting) && vm in exiting && lua[vm] == {}
    ensures VmsOk(lua, tasks, irqVms, [vm] + pool, exiting - {vm}) && VmsOk(lua - {vm}, tasks, irqVms, pool, exiting - {vm})
  {
    forall t <- tasks ensures TaskOk(lua, tasks[t], irqVms, [vm] + pool) && TaskOk(lua - {vm}, tasks[t], irqVms, pool) {
      assert TaskOk(lua, tasks[t], irqVms, pool);
    }
  }

  lemma RemoveVms(lua: Loaded, tasks: map<Task, Lvm>, irqVms: set<Vm>, pool: seq<Vm>, exiting: set<Vm>, vm: Vm, n: Name)
    requires VmsOk(lua, tasks, irqVms, pool, exiting) && vm in lua
    ensures VmsOk(lua[vm := lua[vm] - {n}], tasks, irqVms, pool, exiting)
  {
    var lua' := lua[vm := lua[vm] - {n}];
    forall t <- tasks ensures TaskOk(lua', tasks[t], irqVms, pool) {
      assert TaskOk(lua, tasks[t], irqVms, pool);
    }
  }

  // ---------------------------------------------------------------- what others may do meanwhile

  /** Same modules, and those that no hook can load are not loaded any more often. */
  ghost predicate Rely(a: Modules, b: Modules, quiet: set<Name>)
  {
    SameModules(a, b) && forall n <- quiet :: NLoaded(b, n) <= NLoaded(a, n)
  }

  lemma RelyRefl(a: Modules, quiet: set<Name>)
    ensures Rely(a, a, quiet)
  {
  }

  lemma RelyTrans(a: Modules, b: Modules, c: Modules, quiet: set<Name>)
    requires Rely(a, b, quiet) && Rely(b, c, quiet)
    ensures Rely(a, c, quiet)
  {
  }

  lemma RelyLess(a: Modules, b: Modules, quiet: set<Name>)
    requires Rely(a, b, quiet)
    ensures Rely(a, b, {})
  {
  }

  lemma RelyLoad(modules: Modules, k: nat, quiet: set<Name>)
    requires NamesDistinct(modules) && k < |modules| && modules[k].name !in quiet
    ensures Rely(modules, WithLoaded(modules, k, 1), quiet)
  {
    var after := WithLoaded(modules, k, 1);
    forall n <- quiet ensures NLoaded(after, n) <= NLoaded(modules, n) {
      NLoadedSet(modules, k, after[k], n);
    }
  }

  lemma RelyFreed(modules: Modules, k: nat, quiet: set<Name>)
    requires NamesDistinct(modules) && k < |modules|
    ensures Rely(modules, WithLoaded(modules, k, -1), quiet)
  {
    var after := WithLoaded(modules, k, -1);
    forall n <- quiet ensures NLoaded(after, n) <= NLoaded(modules, n) {
      NLoadedSet(modules, k, after[k], n);
      NLoadedAt(modules, k);
    }
  }

  /** The module that is leaving is picked by no hook that has not picked it before. */
  ghost predicate NotPicked(before: map<Reader, Hook>, after: map<Reader, Hook>, leaving: Option<Name>)
  {
    leaving.Some? ==> forall r <- after :: after[r].picked == leaving ==> r in before && before[r].picked == leaving
  }

  /** Once all hooks of that time have ended, none can load the leaving module. */
  lemma QuietNow(hooks: map<Reader, Hook>, next: Reader, tasks: map<Task, Lvm>, irqVms: set<Vm>, modules: Modules, quiet: set<Name>,
                 leaving: Option<Name>, earlier: map<Reader, Hook>, since: Reader)
    requires HooksOk(hooks, next, tasks, irqVms, modules, quiet) && QuietOk(modules, quiet, leaving) && leaving.Some?
    requires NotPicked(earlier, hooks, leaving) && (forall r <- earlier :: r < since) && (forall r <- hooks :: r >= since)
    ensures HooksOk(hooks, next, tasks, irqVms, modules, quiet + {leaving.value}) && QuietOk(modules, quiet + {leaving.value}, leaving)
  {
    var more := quiet + {leaving.value};
    forall r <- hooks ensures HookOk(hooks[r], tasks, irqVms, modules, more) {
      assert HookOk(hooks[r], tasks, irqVms, modules, quiet);
    }
  }

  // ---------------------------------------------------------------- the list of modules

  lemma RegisterKeeps(modules: Modules, m: Module, quiet: set<Name>,
                      hooks: map<Reader, Hook>, next: Reader, tasks: map<Task, Lvm>, irqVms: set<Vm>)
    requires NamesDistinct(modules) && QuietOk(modules, quiet, None) && HooksOk(hooks, next, tasks, irqVms, modules, quiet)
    requires !Registered(modules, m.name) && m.life == Live
    ensures NamesDistinct(modules + [m]) && QuietOk(modules + [m], quiet, None) && HooksOk(hooks, next, tasks, irqVms, modules + [m], quiet)
  {
    var modules' := modules + [m];
    forall i | 0 <= i < |modules| ensures modules[i].name != m.name {
      assert !IsAt(modules, i, m.name);
    }
    forall n: Name | Registered(modules, n) ensures Registered(modules', n) {
      var k: nat :| IsAt(modules, k, n);
      assert IsAt(modules', k, n);
    }
    forall r <- hooks ensures HookOk(hooks[r], tasks, irqVms, modules', quiet) {
      assert HookOk(hooks[r], tasks, irqVms, modules, quiet);
    }
  }

  lemma RegisteredSet(modules: Modules, k: nat, m: Module, n: Name)
    requires k < |modules| && m.name == modules[k].name
    ensures Registered(modules[k := m], n) <==> Registered(modules, n)
  {
    var modules' := modules[k := m];
    forall i: nat ensures IsAt(modules', i, n) <==> IsAt(modules, i, n) {
    }
    if Registered(modules, n) {
      var i: nat :| IsAt(modules, i, n);
      assert IsAt(modules', i, n);
    }
    if Registered(modules', n) {
      var i: nat :| IsAt(modules', i, n);
      assert IsAt(modules, i, n);
    }
  }

  lemma LifeKeeps(modules: Modules, k: nat, m: Module, quiet: set<Name>,
                  hooks: map<Reader, Hook>, next: Reader, tasks: map<Task, Lvm>, irqVms: set<Vm>)
    requires NamesDistinct(modules) && HooksOk(hooks, next, tasks, irqVms, modules, quiet)
    requires k < |modules| && m.name == modules[k].name
    ensures NamesDistinct(modules[k := m]) && HooksOk(hooks, next, tasks, irqVms, modules[k := m], quiet)
  {
    var modules' := modules[k := m];
    forall n: Name ensures Registered(modules', n) <==> Registered(modules, n) {
      RegisteredSet(modules, k, m, n);
    }
    forall r <- hooks ensures HookOk(hooks[r], tasks, irqVms, modules', quiet) {
      assert HookOk(hooks[r], tasks, irqVms, modules, quiet);
    }
  }

  lemma LifeQuiet(modules: Modules, k: nat, m: Module, quiet: set<Name>, leaving: Option<Name>, leaving': Option<Name>)
    requires NamesDistinct(modules) && QuietOk(modules, quiet, leaving) && k < |modules| && m.name == modules[k].name
    requires (leaving == None && leaving' == Some(m.name)) || (leaving == Some(m.name) && leaving' == None)
    requires LifeOk(m, quiet, leaving')
    ensures QuietOk(modules[k := m], quiet, leaving')
  {
    var modules' := modules[k := m];
    forall n: Name ensures Registered(modules', n) <==> Registered(modules, n) {
      RegisteredSet(modules, k, m, n);
    }
    IsRegistered(modules', k);
    forall i | 0 <= i < |modules'| ensures LifeOk(modules'[i], quiet, leaving') {
      assert LifeOk(modules[i], quiet, leaving);
    }
  }

  /** A zombie goes off the list; no hook had anything to do with it any more. */
  lemma UnlistKeeps(modules: Modules, k: nat, quiet: set<Name>,
                    hooks: map<Reader, Hook>, next: Reader, tasks: map<Task, Lvm>, irqVms: set<Vm>)
    requires NamesDistinct(modules) && HooksOk(hooks, next, tasks, irqVms, modules, quiet)
    requires k < |modules| && QuietOk(modules, quiet, None) && modules[k].life == Zombie
    ensures var rest, less := modules[..k] + modules[k + 1..], quiet - {modules[k].name};
            && NamesDistinct(rest) && QuietOk(rest, less, None) && !Registered(rest, modules[k].name)
            && HooksOk(hooks, next, tasks, irqVms, rest, less)
  {
    var rest, less := modules[..k] + modules[k + 1..], quiet - {modules[k].name};
    assert LifeOk(modules[k], quiet, None);
    forall n: Name | n != modules[k].name && Registered(modules, n) ensures Registered(rest, n) {
      var i: nat :| IsAt(modules, i, n);
      assert IsAt(rest, if i < k then i else i - 1, n);
    }
    forall i | 0 <= i < |rest| ensures LifeOk(rest[i], less, None) && rest[i].name != modules[k].name {
      assert LifeOk(modules[if i < k then i else i + 1], quiet, None);
    }
    forall r <- hooks ensures HookOk(hooks[r], tasks, irqVms, rest, less) {
      assert HookOk(hooks[r], tasks, irqVms, modules, quiet);
    }
  }
}
