/**
 How an exiting task's Lua state gives up its modules: lua_modules_free walks over the list while modules are
 registered and unregistered.
 */
module LuaExit {
  import opened Basics
  import opened LuaState
  import opened LuaBoard

  /**
   The walk of lua_modules_free for one Lua state: the earliest registration that it may still come to, and the
   modules that it has taken off their counts. Those stay in the _MODULES table until the walk is over.
   */
  datatype Exit = Exit(from: nat, off: set<Name>)

  type Exits = map<Vm, Exit>

  ghost predicate StillToCome(modules: Modules, n: Name, from: nat)
  {
    exists k: nat :: IsAt(modules, k, n) && modules[k].stamp >= from
  }

  ghost predicate Passed(modules: Modules, n: Name, from: nat)
  {
    exists k: nat :: IsAt(modules, k, n) && modules[k].stamp < from
  }

  /** `gone` has been taken off the list, but has not been freed. */
  ghost predicate ExitOk(modules: Modules, held: set<Name>, e: Exit, gone: Option<Name>)
  {
    && (forall n <- held :: StillToCome(modules, n, e.from))
    && (forall n <- e.off :: Passed(modules, n, e.from) || gone == Some(n))
  }

  ghost predicate ExitsOk(modules: Modules, lua: Loaded, exits: Exits, gone: Option<Name>)
  {
    && (forall vm <- exits :: vm in lua && ExitOk(modules, lua[vm], exits[vm], gone))
    && (gone.Some? ==> !Registered(modules, gone.value))
  }

  /** No walk has met the module that is gone since. */
  ghost predicate NotMet(before: Exits, after: Exits, gone: Option<Name>)
  {
    gone.Some? ==> forall vm <- after :: gone.value in after[vm].off ==> vm in before && gone.value in before[vm].off
  }

  // ---------------------------------------------------------------- changes of the list

  /** Whatever is on the first list is on the second one, from the same registration. */
  ghost predicate Carried(a: Modules, b: Modules, n: Name)
  {
    forall k: nat :: IsAt(a, k, n) ==> exists j: nat :: IsAt(b, j, n) && b[j].stamp == a[k].stamp
  }

  lemma CarriedExit(a: Modules, b: Modules, held: set<Name>, e: Exit, gone: Option<Name>)
    requires ExitOk(a, held, e, None) && forall n: Name :: (n in held || n in e.off) && gone != Some(n) ==> Carried(a, b, n)
    requires gone.Some? ==> gone.value !in held
    ensures ExitOk(b, held, e, gone)
  {
    forall n <- held ensures StillToCome(b, n, e.from) {
      var k: nat :| IsAt(a, k, n) && a[k].stamp >= e.from;
      assert Carried(a, b, n);
    }
    forall n <- e.off | gone != Some(n) ensures Passed(b, n, e.from) {
      var k: nat :| IsAt(a, k, n) && a[k].stamp < e.from;
      assert Carried(a, b, n);
    }
  }

  lemma SameExits(a: Modules, b: Modules, lua: Loaded, exits: Exits, gone: Option<Name>)
    requires ExitsOk(a, lua, exits, gone) && SameModules(a, b)
    ensures ExitsOk(b, lua, exits, gone)
  {
    SameRegistered(a, b);
    forall vm <- exits ensures ExitOk(b, lua[vm], exits[vm], gone) {
      var e := exits[vm];
      assert ExitOk(a, lua[vm], e, gone);
      forall n <- lua[vm] ensures StillToCome(b, n, e.from) {
        var k: nat :| IsAt(a, k, n) && a[k].stamp >= e.from;
        assert IsAt(b, k, n);
      }
      forall n <- e.off | gone != Some(n) ensures Passed(b, n, e.from) {
        var k: nat :| IsAt(a, k, n) && a[k].stamp < e.from;
        assert IsAt(b, k, n);
      }
    }
  }

  lemma AppendExits(modules: Modules, m: Module, lua: Loaded, exits: Exits)
    requires ExitsOk(modules, lua, exits, None)
    ensures ExitsOk(modules + [m], lua, exits, None)
  {
    forall n: Name ensures Carried(modules, modules + [m], n) {
      forall k: nat | IsAt(modules, k, n) ensures IsAt(modules + [m], k, n) && (modules + [m])[k] == modules[k] {
      }
    }
    forall vm <- exits ensures ExitOk(modules + [m], lua[vm], exits[vm], None) {
      CarriedExit(modules, modules + [m], lua[vm], exits[vm], None);
    }
  }

  lemma SetExits(modules: Modules, k: nat, m: Module, lua: Loaded, exits: Exits)
    requires ExitsOk(modules, lua, exits, None) && k < |modules| && m.name == modules[k].name && m.stamp == modules[k].stamp
    ensures ExitsOk(modules[k := m], lua, exits, None)
  {
    var after := modules[k := m];
    forall n: Name ensures Carried(modules, after, n) {
      forall i: nat | IsAt(modules, i, n) ensures IsAt(after, i, n) && after[i].stamp == modules[i].stamp {
      }
    }
    forall vm <- exits ensures ExitOk(after, lua[vm], exits[vm], None) {
      CarriedExit(modules, after, lua[vm], exits[vm], None);
    }
  }

  /** A module that no Lua state is counted for is taken off the list, although the table of an exiting one may still hold it. */
  lemma UnlistExits(modules: Modules, k: nat, lua: Loaded, exits: Exits)
    requires ExitsOk(modules, lua, exits, None) && NamesDistinct(modules) && k < |modules| && Holders(lua, modules[k].name) == {}
    ensures ExitsOk(modules[..k] + modules[k + 1..], lua, exits, Some(modules[k].name))
  {
    var rest, gone := modules[..k] + modules[k + 1..], modules[k].name;
    forall i: nat ensures !IsAt(rest, i, gone) {
      assert i < |rest| ==> rest[i] == modules[if i < k then i else i + 1];
    }
    forall n: Name | n != gone ensures Carried(modules, rest, n) {
      forall i: nat | IsAt(modules, i, n) ensures exists j: nat :: IsAt(rest, j, n) && rest[j].stamp == modules[i].stamp {
        assert rest[if i < k then i else i - 1] == modules[i];
        assert IsAt(rest, if i < k then i else i - 1, n);
      }
    }
    forall vm <- exits ensures ExitOk(rest, lua[vm], exits[vm], Some(gone)) {
      assert vm !in Holders(lua, gone);
      CarriedExit(modules, rest, lua[vm], exits[vm], Some(gone));
    }
  }

  // ---------------------------------------------------------------- changes of the Lua states

  lemma LuaExits(modules: Modules, lua: Loaded, lua': Loaded, exits: Exits, gone: Option<Name>)
    requires ExitsOk(modules, lua, exits, gone) && forall vm <- exits :: vm in lua ==> vm in lua' && lua'[vm] <= lua[vm]
    ensures ExitsOk(modules, lua', exits, gone)
  {
    forall vm <- exits ensures ExitOk(modules, lua'[vm], exits[vm], gone) {
      assert ExitOk(modules, lua[vm], exits[vm], gone);
    }
  }

  // ---------------------------------------------------------------- the walk

  lemma NotPassed(modules: Modules, k: nat, from: nat)
    requires NamesDistinct(modules) && k < |modules| && modules[k].stamp >= from
    ensures !Passed(modules, modules[k].name, from)
  {
  }

  /** In the beginning, every module that the Lua state holds is still to come. */
  lemma BeginExit(modules: Modules, lua: Loaded, exits: Exits, gone: Option<Name>, vm: Vm, leaving: Option<Name>, removed: nat)
    requires ExitsOk(modules, lua, exits, gone) && LoadedExact(modules, lua, leaving, removed) && vm in lua
    ensures ExitsOk(modules, lua, exits[vm := Exit(0, {})], gone)
  {
    forall n <- lua[vm] ensures StillToCome(modules, n, 0) {
      assert Registered(modules, n);
      var k: nat :| IsAt(modules, k, n);
    }
  }

  /**
   A turn of the walk: if the table holds the module then it is one that has not been taken off its count before,
   and not one that has been registered under the name of such a module.
   */
  lemma TurnExit(modules: Modules, lua: Loaded, exits: Exits, gone: Option<Name>, vm: Vm, k: nat)
    requires ExitsOk(modules, lua, exits, gone) && NamesDistinct(modules) && Increasing(modules)
    requires vm in exits && IsNext(modules, exits[vm].from, k) && k < |modules|
    ensures gone != Some(modules[k].name) && modules[k].name !in exits[vm].off
    ensures var n, e := modules[k].name, exits[vm];
            ExitsOk(modules, lua[vm := lua[vm] - {n}], exits[vm := Exit(modules[k].stamp + 1, e.off + lua[vm] * {n})], gone)
  {
    var n, e := modules[k].name, exits[vm];
    var e' := Exit(modules[k].stamp + 1, e.off + lua[vm] * {n});
    assert ExitOk(modules, lua[vm], e, gone);
    IsRegistered(modules, k);
    NotPassed(modules, k, e.from);
    forall x <- lua[vm] - {n} ensures StillToCome(modules, x, e'.from) {
      var i: nat :| IsAt(modules, i, x) && modules[i].stamp >= e.from;
      assert i != k;
    }
    forall x <- e'.off ensures Passed(modules, x, e'.from) || gone == Some(x) {
      if x in e.off && gone != Some(x) {
        var i: nat :| IsAt(modules, i, x) && modules[i].stamp < e.from;
      } else if x == n {
        assert IsAt(modules, k, n);
      }
    }
    assert ExitOk(modules, lua[vm] - {n}, e', gone);
    forall v <- exits | v != vm ensures ExitOk(modules, lua[v], exits[v], gone) {
    }
  }

  /** At the end of the list, nothing is left in the Lua state that is counted. */
  lemma EndOfExit(modules: Modules, lua: Loaded, exits: Exits, gone: Option<Name>, vm: Vm)
    requires ExitsOk(modules, lua, exits, gone) && vm in exits && IsNext(modules, exits[vm].from, |modules|)
    ensures vm in lua && lua[vm] == {}
  {
    assert ExitOk(modules, lua[vm], exits[vm], gone);
    assert forall n: Name :: !StillToCome(modules, n, exits[vm].from);
  }
}
