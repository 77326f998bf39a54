/**
 What running hooks see of the modules and of the counters of the fast paths, while modules are registered
 and unregistered: lsm.c, lsm_defs.h.
 */
module LuaBoard {
  import opened Basics
  import opened LuaState

  // ---------------------------------------------------------------- what the counters count

  /** The module is live, and has a function for the hook, if one is given. */
  predicate Serves(m: Module, h: Option<nat>)
  {
    m.life == Live && (h.Some? ==> h.value in m.hooks)
  }

  /** How many modules serve a hook; without a hook, how many are live. */
  function Serving(modules: Modules, h: Option<nat>): int
  {
    if modules == [] then 0 else Bit(Serves(modules[0], h)) + Serving(modules[1..], h)
  }

  function HookCount(nhooks: map<nat, int>, h: nat): int
  {
    if h in nhooks then nhooks[h] else 0
  }

  lemma {:induction false} ServingAppend(modules: Modules, m: Module, h: Option<nat>)
    ensures Serving(modules + [m], h) == Serving(modules, h) + Bit(Serves(m, h))
  {
    if modules == [] {
      assert modules + [m] == [m];
    } else {
      ServingAppend(modules[1..], m, h);
      assert (modules + [m])[1..] == modules[1..] + [m];
    }
  }

  lemma {:induction false} ServingSet(modules: Modules, k: nat, m: Module, h: Option<nat>)
    requires k < |modules|
    ensures Serving(modules[k := m], h) == Serving(modules, h) - Bit(Serves(modules[k], h)) + Bit(Serves(m, h))
  {
    if k == 0 {
      assert modules[k := m][1..] == modules[1..];
    } else {
      ServingSet(modules[1..], k - 1, m, h);
      assert modules[k := m][1..] == modules[1..][k - 1 := m];
    }
  }

  lemma {:induction false} ServingWithout(modules: Modules, k: nat, h: Option<nat>)
    requires k < |modules|
    ensures Serving(modules[..k] + modules[k + 1..], h) == Serving(modules, h) - Bit(Serves(modules[k], h))
  {
    if k == 0 {
      assert modules[..k] + modules[k + 1..] == modules[1..];
    } else {
      ServingWithout(modules[1..], k - 1, h);
      assert (modules[..k] + modules[k + 1..])[1..] == modules[1..][..k - 1] + modules[1..][k..];
    }
  }

  // ---------------------------------------------------------------- boards and runs

  /** Registering and unregistering store one counter after the other: how far they are ahead of the list meanwhile. */
  datatype Ahead = Ahead(hooks: set<nat>, live: int)

  const SETTLED := Ahead({}, 0)

  /** What hooks can see of the modules and the counters, and how many registrations have been completed. */
  datatype Board = Board(modules: Modules, nhooks: map<nat, int>, active: int, ahead: Ahead, done: nat)

  /** The counters that the fast paths of the dispatcher look at. */
  ghost predicate Counted(b: Board)
  {
    && b.active == Serving(b.modules, None) + b.ahead.live
    && forall h: nat :: HookCount(b.nhooks, h) == Serving(b.modules, Some(h)) + Bit(h in b.ahead.hooks)
  }

  predicate Increasing(modules: Modules)
  {
    forall i, j :: 0 <= i < j < |modules| ==> modules[i].stamp < modules[j].stamp
  }

  /** The list is in the order of registration; all but a module whose registration has not been completed are below `done`. */
  predicate Stamped(b: Board)
  {
    && Increasing(b.modules)
    && if b.ahead.live < 0 then
         b.ahead.live == -1 && b.modules != [] && b.modules[|b.modules| - 1].stamp == b.done && b.modules[|b.modules| - 1].life == Live
       else
         b.modules != [] ==> b.modules[|b.modules| - 1].stamp < b.done
  }

  ghost predicate BoardOk(b: Board)
  {
    Counted(b) && Stamped(b)
  }

  /** The module of registration `s` is on the list, is live, and has a function for the hook. */
  predicate ServesAt(modules: Modules, h: Option<nat>, s: nat)
  {
    exists k :: 0 <= k < |modules| && modules[k].stamp == s && Serves(modules[k], h)
  }

  /** What one store of others does to the board: a module that has been registered never starts to serve again. */
  ghost predicate Evolves(a: Board, b: Board)
  {
    a.done <= b.done && forall h: Option<nat>, s: nat :: s < a.done && ServesAt(b.modules, h, s) ==> ServesAt(a.modules, h, s)
  }

  /** All that happens to the board during some time. */
  ghost predicate Run(run: seq<Board>)
  {
    && run != []
    && (forall t :: 0 <= t < |run| ==> BoardOk(run[t]))
    && (forall t :: 0 <= t < |run| - 1 ==> Evolves(run[t], run[t + 1]))
  }

  function Last(run: seq<Board>): Board
    requires run != []
  {
    run[|run| - 1]
  }

  lemma RunStep(run: seq<Board>, b: Board)
    requires Run(run) && BoardOk(b) && Evolves(Last(run), b)
    ensures Run(run + [b]) && Last(run + [b]) == b
  {
  }

  /** What happens while a hook runs is a part of all that happens. */
  lemma RunPart(run: seq<Board>, i: nat, j: nat)
    requires Run(run) && i < j <= |run|
    ensures Run(run[i..j])
  {
  }

  /** No module whose registration had been completed has begun to serve. */
  lemma {:induction false} RunEvolves(run: seq<Board>, i: nat, j: nat)
    requires Run(run) && i <= j < |run|
    ensures Evolves(run[i], run[j])
    decreases j
  {
    if i < j {
      RunEvolves(run, i, j - 1);
    }
  }

  /** The modules, but for how often they are loaded. */
  function Bare(modules: Modules): (bare: Modules)
    ensures SameModules(modules, bare)
  {
    seq(|modules|, k requires 0 <= k < |modules| => modules[k].(nloaded := 0))
  }

  lemma BareSame(a: Modules, b: Modules)
    requires SameModules(a, b)
    ensures Bare(a) == Bare(b)
  {
  }

  lemma BareSet(modules: Modules, k: nat, m: Module)
    requires k < |modules|
    ensures Bare(modules[k := m]) == Bare(modules)[k := m.(nloaded := 0)]
  {
  }

  lemma BareWithout(modules: Modules, k: nat)
    requires k < |modules|
    ensures Bare(modules[..k] + modules[k + 1..]) == Bare(modules)[..k] + Bare(modules)[k + 1..]
  {
  }

  // ---------------------------------------------------------------- walks over the list

  /** `k` is where a walk that has come to `from` goes next. */
  predicate IsNext(modules: Modules, from: nat, k: nat)
  {
    && k <= |modules| && (k < |modules| ==> modules[k].stamp >= from)
    && forall i :: 0 <= i < |modules| && modules[i].stamp >= from ==> k < |modules| && modules[k].stamp <= modules[i].stamp
  }

  /** The next module on the list. */
  method Next(modules: Modules, from: nat) returns (k: nat)
    requires Increasing(modules)
    ensures IsNext(modules, from, k)
  {
    k := 0;
    while k < |modules| && modules[k].stamp < from
      invariant k <= |modules| && forall i :: 0 <= i < k ==> modules[i].stamp < from
    {
      k := k + 1;
    }
  }

  // ---------------------------------------------------------------- the stores of registering and unregistering

  /** A hook of a module that is being registered is counted. */
  lemma CountHook(b: Board, h: nat)
    requires BoardOk(b) && h !in b.ahead.hooks
    ensures var c := b.(nhooks := b.nhooks[h := HookCount(b.nhooks, h) + 1], ahead := b.ahead.(hooks := b.ahead.hooks + {h}));
            BoardOk(c) && Evolves(b, c)
  {
  }

  /** A hook of a module that has left is not counted any more. */
  lemma UncountHook(b: Board, h: nat)
    requires BoardOk(b) && h in b.ahead.hooks
    ensures var c := b.(nhooks := b.nhooks[h := HookCount(b.nhooks, h) - 1], ahead := b.ahead.(hooks := b.ahead.hooks - {h}));
            BoardOk(c) && Evolves(b, c)
  {
  }

  /** A module whose hooks have been counted is put on the list. */
  lemma ListModule(b: Board, m: Module)
    requires BoardOk(b) && b.ahead == Ahead(m.hooks, 0) && m.life == Live && m.stamp == b.done
    ensures var c := b.(modules := b.modules + [m], ahead := Ahead({}, -1)); BoardOk(c) && Evolves(b, c)
  {
    ServingAppend(b.modules, m, None);
    forall h: nat ensures HookCount(b.nhooks, h) == Serving(b.modules + [m], Some(h)) {
      ServingAppend(b.modules, m, Some(h));
    }
  }

  /** The static key counts the new module: its registration is complete. */
  lemma CountLive(b: Board)
    requires BoardOk(b) && b.ahead == Ahead({}, -1)
    ensures var c := b.(active := b.active + 1, ahead := SETTLED, done := b.done + 1); BoardOk(c) && Evolves(b, c)
  {
  }

  /** The static key does not count a module that has left any more. */
  lemma UncountLive(b: Board)
    requires BoardOk(b) && b.ahead.live == 1
    ensures var c := b.(active := b.active - 1, ahead := b.ahead.(live := 0)); BoardOk(c) && Evolves(b, c)
  {
  }

  /** What the counters are ahead by when a module stops being live. */
  function Left(m: Module): Ahead
  {
    if m.life == Live then Ahead(m.hooks, 1) else SETTLED
  }

  /** A module stops being live, or becomes a zombie. */
  lemma EndLife(b: Board, k: nat, m: Module)
    requires BoardOk(b) && b.ahead == SETTLED && k < |b.modules| && m == b.modules[k].(life := m.life) && m.life != Live
    ensures var c := b.(modules := b.modules[k := m], ahead := Left(b.modules[k])); BoardOk(c) && Evolves(b, c)
  {
    ServingSet(b.modules, k, m, None);
    forall h: nat ensures HookCount(b.nhooks, h) == Serving(b.modules[k := m], Some(h)) + Bit(h in Left(b.modules[k]).hooks) {
      ServingSet(b.modules, k, m, Some(h));
    }
  }

  /** A module that is not live is taken off the list. */
  lemma Unlist(b: Board, k: nat)
    requires BoardOk(b) && b.ahead == SETTLED && k < |b.modules| && b.modules[k].life != Live
    ensures var c := b.(modules := b.modules[..k] + b.modules[k + 1..]); BoardOk(c) && Evolves(b, c)
  {
    var rest := b.modules[..k] + b.modules[k + 1..];
    ServingWithout(b.modules, k, None);
    forall h: nat ensures Serving(rest, Some(h)) == Serving(b.modules, Some(h)) {
      ServingWithout(b.modules, k, Some(h));
    }
    forall h: Option<nat>, s: nat | ServesAt(rest, h, s) ensures ServesAt(b.modules, h, s) {
      var i :| 0 <= i < |rest| && rest[i].stamp == s && Serves(rest[i], h);
      assert b.modules[if i < k then i else i + 1] == rest[i];
    }
  }

  // ---------------------------------------------------------------- what the counters mean

  lemma {:induction false} NoneServes(modules: Modules, h: Option<nat>)
    ensures Serving(modules, h) >= 0
    ensures Serving(modules, h) == 0 <==> forall k: nat :: k < |modules| ==> !Serves(modules[k], h)
  {
    if modules != [] {
      NoneServes(modules[1..], h);
      assert forall k: nat :: 0 < k < |modules| ==> modules[k] == modules[1..][k - 1];
      assert forall k: nat :: k < |modules| - 1 ==> modules[1..][k] == modules[k + 1];
    }
  }

  /** Whatever stores are under way, the fast paths do not miss a module whose registration has been completed. */
  lemma Covered(b: Board, h: nat, s: nat)
    requires BoardOk(b) && s < b.done && ServesAt(b.modules, Some(h), s)
    ensures HookCount(b.nhooks, h) > 0 && b.active > 0
  {
    var k :| 0 <= k < |b.modules| && b.modules[k].stamp == s && Serves(b.modules[k], Some(h));
    NoneServes(b.modules, Some(h));
    NoneServes(b.modules, None);
    if b.ahead.live < 0 {
      var n := |b.modules| - 1;
      ServingWithout(b.modules, n, None);
      var rest := b.modules[..n] + b.modules[n + 1..];
      NoneServes(rest, None);
      assert rest[k] == b.modules[k];
    }
  }

  /** A counter that is not zero means that a module serves the hook, or that one is coming or has just left. */
  lemma Known(b: Board, h: nat)
    requires BoardOk(b) && HookCount(b.nhooks, h) != 0
    ensures h in b.ahead.hooks || exists s: nat :: ServesAt(b.modules, Some(h), s)
  {
    NoneServes(b.modules, Some(h));
    if h !in b.ahead.hooks {
      var k: nat :| k < |b.modules| && Serves(b.modules[k], Some(h));
      assert ServesAt(b.modules, Some(h), b.modules[k].stamp);
    }
  }
}
