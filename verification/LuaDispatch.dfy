/**
 How a hook gets its answer from the Lua modules: lsm_defs.h.

 A module's function is not looked into: it is given by the outcome of calling it.
 */
module LuaDispatch {
  import opened Basics
  import opened LuaState
  import opened LuaBoard

  const EPERM := 1
  const ENOMEM_ERRNO := 12
  const MAX_ERRNO := 4095

  /** A Lua value as far as decoders tell them apart; a string may read as a number. */
  datatype Value = Nil | Boolean(truth: bool) | Number(number: int) | Text(asNumber: Option<int>) | Other

  /** How the answer of a hook is decoded. */
  datatype Kind = Void | Integer | Bool | BoolErr

  /** What calling a module comes to; a naked hook is a C function that returns its answer. */
  datatype Outcome = NoFunction | Failed | Results(values: seq<Value>) | Naked(answer: int)

  function ToInteger(v: Value): int
  {
    match v
    case Number(n) => n
    case Text(Some(n)) => n
    case _ => 0
  }

  predicate ToBoolean(v: Value)
  {
    v != Nil && v != Boolean(false)
  }

  /** The conversion to a C int of 32 bits. */
  function CInt(n: int): int
  {
    (n + 0x8000_0000) % 0x1_0000_0000 - 0x8000_0000
  }

  /** lua_lsm_pcall_res_errno */
  method ResErrno(v: Value, old_: int) returns (ret: int)
    ensures ret == if 0 < CInt(ToInteger(v)) <= MAX_ERRNO then -CInt(ToInteger(v)) else old_
  {
    ret := old_;
    var errnum := CInt(ToInteger(v));
    if errnum > 0 && errnum <= MAX_ERRNO {
      ret := -errnum;
    }
  }

  /** It keeps what fits, and wraps around. */
  lemma CIntWraps(n: int)
    ensures -0x8000_0000 <= CInt(n) < 0x8000_0000 && (CInt(n) - n) % 0x1_0000_0000 == 0
    ensures -0x8000_0000 <= n < 0x8000_0000 ==> CInt(n) == n
  {
    var m := n + 0x8000_0000;
    assert CInt(n) - n == -(m / 0x1_0000_0000) * 0x1_0000_0000;
  }

  // ---------------------------------------------------------------- what the formats mean

  /** The value reads as an errno `e`. */
  predicate NamesErrno(v: Value, e: int) { CInt(ToInteger(v)) == e && 1 <= e <= 4095 }

  /** The documented formats, for the results that decide something. */
  ghost predicate Says(kind: Kind, values: seq<Value>, v: int)
  {
    match kind
    case Void => false
    case Integer =>
      || (values == [Boolean(true)] && v == 0)
      || (values == [Boolean(false)] && v == -1)
      || (|values| >= 2 && values[0] in {Nil, Boolean(false)} && NamesErrno(values[1], -v))
    case Bool =>
      |values| >= 1 && ((values[0] == Boolean(true) && v == 1) || (values[0] == Boolean(false) && v == 0))
    case BoolErr =>
      || (|values| >= 1 && values[0] == Boolean(true) && v == 1)
      || (values == [Boolean(false)] && v == 0)
      || (|values| >= 2 && values[0] in {Nil, Boolean(false)} && NamesErrno(values[1], -v))
  }

  /** All others leave the default: no result, nil, a value that is no boolean, and an errno that is none. */
  ghost predicate SaysNothing(kind: Kind, values: seq<Value>)
  {
    match kind
    case Void => true
    case Integer =>
      || values == [] || (|values| == 1 && !values[0].Boolean?)
      || (|values| >= 2 && values[0] !in {Nil, Boolean(false)})
      || (|values| >= 2 && forall e: int :: !NamesErrno(values[1], e))
    case Bool =>
      values == [] || !values[0].Boolean?
    case BoolErr =>
      || values == [] || (values[0] != Nil && !values[0].Boolean?) || values == [Nil]
      || (|values| >= 2 && values[0] != Boolean(true) && forall e: int :: !NamesErrno(values[1], e))
  }

  /** How results are decoded, as a function. */
  function Meaning(kind: Kind, values: seq<Value>, default_: int): int
  {
    if kind == Void || values == [] || values == [Nil] then default_
    else if |values| == 1 || kind == Bool then
      if !values[0].Boolean? then default_
      else if kind == Integer then (if values[0].truth then 0 else -EPERM)
      else (if values[0].truth then 1 else 0)
    else if kind == BoolErr && values[0] == Boolean(true) then 1
    else if (values[0] == Nil || values[0] == Boolean(false)) && 0 < CInt(ToInteger(values[1])) <= MAX_ERRNO then -CInt(ToInteger(values[1]))
    else default_
  }

  /** It is what the formats say: every list of results decides one value or leaves the default, and not both. */
  lemma MeaningDocumented(kind: Kind, values: seq<Value>, default_: int)
    ensures forall v: int :: Says(kind, values, v) ==> Meaning(kind, values, default_) == v
    ensures SaysNothing(kind, values) ==> Meaning(kind, values, default_) == default_
    ensures SaysNothing(kind, values) <==> !Says(kind, values, Meaning(kind, values, default_))
  {
    if |values| >= 2 {
      var e := CInt(ToInteger(values[1]));
      assert 1 <= e <= 4095 ==> NamesErrno(values[1], e);
      assert -(-e) == e;
    }
  }

  /** lua_lsm_pcall_res_int */
  method ResInt(values: seq<Value>, old_: int) returns (ret: int)
    ensures ret == Meaning(Integer, values, old_)
    ensures values == [] || values == [Nil] ==> ret == old_
    ensures values == [Boolean(true)] ==> ret == 0
    ensures values == [Boolean(false)] ==> ret == -1
    ensures forall e: int :: |values| >= 2 && values[0] in {Nil, Boolean(false)} && values[1] in {Number(e), Text(Some(e))} ==>
      ret == if 1 <= CInt(e) <= 4095 then -CInt(e) else old_
    ensures |values| >= 2 && values[0] in {Nil, Boolean(false)} && (values[1] in {Nil, Other, Text(None)} || values[1].Boolean?) ==> ret == old_
    ensures |values| >= 2 && values[0] == Boolean(true) ==> ret == old_
  {
    ret := old_;
    if |values| == 0 {
    } else if |values| == 1 {
      if values[0].Boolean? {
        ret := if ToBoolean(values[0]) then 0 else -EPERM;
      }
    } else if !ToBoolean(values[0]) {
      ret := ResErrno(values[1], ret);
    }
  }

  /** lua_lsm_pcall_res_bool */
  method ResBool(values: seq<Value>, old_: int) returns (ret: int)
    ensures ret == Meaning(Bool, values, old_)
    ensures |values| >= 1 && values[0] == Boolean(true) ==> ret == 1
    ensures |values| >= 1 && values[0] == Boolean(false) ==> ret == 0
    ensures values == [] || !values[0].Boolean? ==> ret == old_
  {
    ret := old_;
    if |values| > 0 && values[0].Boolean? {
      ret := if ToBoolean(values[0]) then 1 else 0;
    }
  }

  /** lua_lsm_pcall_res_boolerr */
  method ResBoolErr(values: seq<Value>, old_: int) returns (ret: int)
    ensures ret == Meaning(BoolErr, values, old_)
    ensures values == [] || values == [Nil] ==> ret == old_
    ensures |values| >= 1 && values[0] == Boolean(true) ==> ret == 1
    ensures values == [Boolean(false)] ==> ret == 0
    ensures forall e: int :: |values| >= 2 && values[0] in {Nil, Boolean(false)} && values[1] in {Number(e), Text(Some(e))} ==>
      ret == if 1 <= CInt(e) <= 4095 then -CInt(e) else old_
    ensures |values| >= 2 && values[0] in {Nil, Boolean(false)} && (values[1] in {Nil, Other, Text(None)} || values[1].Boolean?) ==> ret == old_
    ensures values != [] && !values[0].Boolean? && !values[0].Nil? ==> ret == old_
  {
    ret := old_;
    if |values| == 0 {
    } else if |values| == 1 {
      if values[0].Boolean? {
        ret := if ToBoolean(values[0]) then 1 else 0;
      }
    } else if values[0].Boolean? {
      if ToBoolean(values[0]) {
        ret := 1;
      } else {
        ret := ResErrno(values[1], ret);
      }
    } else if values[0].Nil? {
      ret := ResErrno(values[1], ret);
    }
  }

  /** No answer is ever anything but the default, a verdict, or a negative errno. */
  lemma AnswersInRange(kind: Kind, values: seq<Value>, default_: int)
    ensures var m := Meaning(kind, values, default_); m == default_ || m == 0 || m == 1 || -4095 <= m <= -1
  {
  }

  /** What a module answers, were it asked while no one before it had answered. */
  function Answer(kind: Kind, outcome: Outcome, default_: int): int
  {
    match outcome
    case NoFunction => default_
    case Failed => default_
    case Results(values) => Meaning(kind, values, default_)
    case Naked(answer) => if kind == Void then default_ else answer
  }

  /** The outcome decides `v`, by the documented formats. */
  ghost predicate Decides(kind: Kind, outcome: Outcome, v: int)
  {
    || (outcome.Results? && Says(kind, outcome.values, v))
    || (outcome.Naked? && kind != Void && v == outcome.answer)
  }

  /** There is no function, or it fails, or its results decide nothing. */
  ghost predicate DecidesNothing(kind: Kind, outcome: Outcome)
  {
    match outcome
    case NoFunction => true
    case Failed => true
    case Results(values) => SaysNothing(kind, values)
    case Naked(_) => kind == Void
  }

  lemma AnswerDocumented(kind: Kind, outcome: Outcome, default_: int)
    ensures forall v: int :: Decides(kind, outcome, v) ==> Answer(kind, outcome, default_) == v
    ensures DecidesNothing(kind, outcome) ==> Answer(kind, outcome, default_) == default_
    ensures DecidesNothing(kind, outcome) <==> !Decides(kind, outcome, Answer(kind, outcome, default_))
  {
    if outcome.Results? {
      MeaningDocumented(kind, outcome.values, default_);
    }
  }

  // ---------------------------------------------------------------- the dispatcher

  /** A call of a hook: which one, how it is decoded, and what calling each module comes to, by registration. */
  datatype Call = Call(hook: nat, kind: Kind, outcomes: nat -> Outcome, default_: int)

  ghost predicate CallOk(c: Call)
  {
    forall s: nat :: c.outcomes(s).Naked? ==> c.kind != Void
  }

  function Reply(c: Call, s: nat): int
  {
    Answer(c.kind, c.outcomes(s), c.default_)
  }

  /** While the hook runs, there is a time at which the module serves it. */
  ghost predicate May(run: seq<Board>, h: nat, s: nat)
  {
    exists t :: 0 <= t < |run| && ServesAt(run[t].modules, Some(h), s)
  }

  /** The module had been registered when the hook began, and still serves it when the hook ends. */
  ghost predicate Must(run: seq<Board>, h: nat, s: nat)
    requires run != []
  {
    s < run[0].done && ServesAt(Last(run).modules, Some(h), s)
  }

  /** Such a module serves the hook all the time. */
  lemma MustServe(run: seq<Board>, h: nat, s: nat, t: nat)
    requires Run(run) && Must(run, h, s) && t < |run|
    ensures s < run[t].done && ServesAt(run[t].modules, Some(h), s)
  {
    RunEvolves(run, 0, t);
    RunEvolves(run, t, |run| - 1);
  }

  /** A module that has left before the hook begins is never asked, and neither is one that has no function for it. */
  lemma NeverAsked(run: seq<Board>, h: nat, s: nat)
    requires Run(run) && s < run[0].done && !ServesAt(run[0].modules, Some(h), s)
    ensures !May(run, h, s)
  {
    forall t | 0 <= t < |run| ensures !ServesAt(run[t].modules, Some(h), s) {
      RunEvolves(run, 0, t);
    }
  }

  /** No module of a registration before `from` that must be asked does not leave the answer at the default. */
  ghost predicate Silent(run: seq<Board>, c: Call, from: nat)
    requires run != []
  {
    forall s: nat :: s < from && Must(run, c.hook, s) ==> Reply(c, s) == c.default_
  }

  /**
   The answer of the first module that does not leave it at the default, in the order of registration. Modules
   that are registered or leave while the hook runs may be asked or not.
   */
  ghost predicate FirstAnswer(run: seq<Board>, c: Call, ret: int)
    requires run != []
  {
    || (ret == c.default_ && forall from: nat :: Silent(run, c, from))
    || (ret != c.default_ && exists s: nat :: May(run, c.hook, s) && ret == Reply(c, s) && Silent(run, c, s))
  }

  /** The first answer in terms of what the modules return. */
  ghost predicate Verdict(run: seq<Board>, c: Call, ret: int)
    requires run != []
  {
    && (forall s: nat, v: int ::
          Must(run, c.hook, s) && Decides(c.kind, c.outcomes(s), v) && v != c.default_ && NothingBefore(run, c, s) ==> ret == v)
    && ((forall s: nat :: NothingBefore(run, c, s)) ==> ret == c.default_)
  }

  ghost predicate NothingBefore(run: seq<Board>, c: Call, from: nat)
  {
    forall j: nat :: j < from && May(run, c.hook, j) ==> DecidesNothing(c.kind, c.outcomes(j))
  }

  lemma NothingAt(run: seq<Board>, c: Call, k: nat)
    requires (forall s: nat :: NothingBefore(run, c, s)) && May(run, c.hook, k)
    ensures Reply(c, k) == c.default_
  {
    hide May;
    assert NothingBefore(run, c, k + 1);
    AnswerDocumented(c.kind, c.outcomes(k), c.default_);
  }

  /** If the modules that may be asked before decide nothing, then a module that must be asked decides. */
  lemma FirstVerdict(run: seq<Board>, c: Call, ret: int)
    requires run != [] && FirstAnswer(run, c, ret)
    ensures Verdict(run, c, ret)
  {
    hide Decides, DecidesNothing, Must, May;
    forall s: nat, v: int | Must(run, c.hook, s) && Decides(c.kind, c.outcomes(s), v) && v != c.default_ && NothingBefore(run, c, s)
      ensures ret == v
    {
      AnswerDocumented(c.kind, c.outcomes(s), c.default_);
      Heard(run, c, s);
      assert !Silent(run, c, s + 1);
      var k: nat :| May(run, c.hook, k) && ret == Reply(c, k) && Silent(run, c, k);
      AnswerDocumented(c.kind, c.outcomes(k), c.default_);
    }
    if (forall s: nat :: NothingBefore(run, c, s)) && ret != c.default_ {
      var k: nat :| May(run, c.hook, k) && ret == Reply(c, k) && Silent(run, c, k);
      NothingAt(run, c, k);
    }
  }

  lemma Heard(run: seq<Board>, c: Call, s: nat)
    requires run != [] && Must(run, c.hook, s) && Reply(c, s) != c.default_
    ensures forall from: nat :: s < from ==> !Silent(run, c, from)
  {
  }

  /** When no module comes or leaves, at most one value can be the first answer. */
  lemma FirstAnswerUnique(run: seq<Board>, c: Call, a: int, b: int)
    requires run != [] && forall s: nat :: May(run, c.hook, s) ==> Must(run, c.hook, s)
    requires FirstAnswer(run, c, a) && FirstAnswer(run, c, b)
    ensures a == b
  {
    if i: nat :| May(run, c.hook, i) && Reply(c, i) != c.default_ && Silent(run, c, i) {
      Heard(run, c, i);
      assert !Silent(run, c, i + 1);
      var j: nat :| May(run, c.hook, j) && b == Reply(c, j) && Silent(run, c, j) && b != c.default_;
      Heard(run, c, j);
      assert i == j;
    }
  }

  /** A module serves the hook, is being registered for it, or has just stopped to serve it. */
  ghost predicate ComesAt(b: Board, h: nat)
  {
    h in b.ahead.hooks || exists s: nat :: ServesAt(b.modules, Some(h), s)
  }

  ghost predicate MayCome(run: seq<Board>, h: nat)
  {
    exists t :: 0 <= t < |run| && ComesAt(run[t], h)
  }

  /** So it is while nobody registers or unregisters. */
  lemma StandsStill(run: seq<Board>, h: nat)
    requires Run(run) && run[0].ahead == SETTLED && forall t :: 0 <= t < |run| ==> run[t] == run[0]
    ensures forall s: nat :: May(run, h, s) <==> Must(run, h, s)
    ensures MayCome(run, h) <==> exists s: nat :: Must(run, h, s)
  {
    forall s: nat ensures May(run, h, s) <==> Must(run, h, s) {
      if Must(run, h, s) {
        MustServe(run, h, s, 0);
      }
    }
    if MayCome(run, h) {
      var t :| 0 <= t < |run| && ComesAt(run[t], h);
      var s: nat :| ServesAt(run[t].modules, Some(h), s);
      assert May(run, h, s);
    }
    if s: nat :| Must(run, h, s) {
      assert ComesAt(run[0], h) by { MustServe(run, h, s, 0); }
    }
  }

  /** One call of a module's function, and the decoding of what it returns. */
  method CallModule(kind: Kind, outcome: Outcome, was: int) returns (ret: int)
    requires outcome.Naked? ==> kind != Void
    ensures ret == Answer(kind, outcome, was)
  {
    ret := was;
    match outcome
    case NoFunction =>
    case Failed =>
    case Naked(answer) => ret := answer;
    case Results(values) =>
      match kind
      case Void =>
      case Integer => ret := ResInt(values, ret);
      case Bool => ret := ResBool(values, ret);
      case BoolErr => ret := ResBoolErr(values, ret);
  }

  /** Others take some steps. */
  method Later(run: seq<Board>, t: nat) returns (later: nat)
    requires t < |run|
    ensures t <= later < |run|
  {
    later :| t <= later < |run|;
  }

  /**
   The modules that have been called: each once, in the order of registration, and only while it serves the hook;
   as long as the answer is the default, every module that must be called.
   */
  ghost predicate CalledInOrder(run: seq<Board>, h: nat, called: seq<nat>, from: nat)
    requires run != []
  {
    && (forall i, j :: 0 <= i < j < |called| ==> called[i] < called[j])
    && (forall i :: 0 <= i < |called| ==> called[i] < from && May(run, h, called[i]))
    && (forall s: nat :: s < from && Must(run, h, s) ==> s in called)
  }

  /**
   The loop of LUA_LSM_DEFINEx over the list, which starts when the board is at `start`. `from` is the earliest
   registration that it may still come to.
   */
  method Loop(run: seq<Board>, start: nat, c: Call) returns (ret: int, ghost called: seq<nat>)
    requires Run(run) && start < |run| && CallOk(c)
    ensures FirstAnswer(run, c, ret)
    ensures exists from: nat :: CalledInOrder(run, c.hook, called, from)
    ensures ret == c.default_ || c.kind == Void ==> forall s: nat :: Must(run, c.hook, s) ==> s in called
  {
    hide Run, BoardOk, ServesAt;
    ret, called := c.default_, [];
    var t: nat, from: nat := start, 0;
    while true
      invariant t < |run| && ret == c.default_ && Silent(run, c, from) && CalledInOrder(run, c.hook, called, from)
      decreases Last(run).done + 2 - from
    {
      t := Later(run, t);
      BoardAt(run, t);
      var k := Next(run[t].modules, from);
      if k == |run[t].modules| {
        NoneLeft(run, c.hook, t, from);
        assert forall s: nat :: Silent(run, c, s);
        return;
      }
      var m := run[t].modules[k];
      ghost var met, before := t, called;
      if c.hook in m.hooks {
        t := Later(run, t);
        if ServesAt(run[t].modules, Some(c.hook), m.stamp) {
          ret := CallModule(c.kind, c.outcomes(m.stamp), ret);
          called := called + [m.stamp];
        }
      }
      forall s: nat | from <= s <= m.stamp && Must(run, c.hook, s)
        ensures s == m.stamp && ServesAt(run[t].modules, Some(c.hook), s) && c.hook in m.hooks
      {
        MustServe(run, c.hook, s, met);
        MustServe(run, c.hook, s, t);
        OnList(run[met].modules, Some(c.hook), s);
      }
      CalledOneMore(run, c.hook, before, called, from, m.stamp);
      if c.kind != Void && ret != c.default_ {
        assert May(run, c.hook, m.stamp) && Silent(run, c, m.stamp);
        return;
      }
      from := m.stamp + 1;
    }
  }

  lemma CalledOneMore(run: seq<Board>, h: nat, before: seq<nat>, called: seq<nat>, from: nat, s: nat)
    requires run != [] && CalledInOrder(run, h, before, from) && from <= s
    requires called == before || (called == before + [s] && May(run, h, s))
    requires forall k: nat :: from <= k <= s && Must(run, h, k) ==> k == s && called == before + [s]
    ensures CalledInOrder(run, h, called, s + 1)
  {
    hide May, Must;
    forall k: nat | k < s + 1 && Must(run, h, k) ensures k in called {
      if k < from {
        assert k in before;
      }
    }
  }

  lemma BoardAt(run: seq<Board>, t: nat)
    requires Run(run) && t < |run|
    ensures BoardOk(run[t]) && Increasing(run[t].modules) && forall k :: 0 <= k < |run[t].modules| ==> run[t].modules[k].stamp <= Last(run).done
  {
    RunEvolves(run, t, |run| - 1);
    assert Stamped(run[t]);
  }

  lemma NoneLeft(run: seq<Board>, h: nat, t: nat, from: nat)
    requires Run(run) && t < |run| && forall k :: 0 <= k < |run[t].modules| ==> run[t].modules[k].stamp < from
    ensures forall s: nat :: s >= from ==> !Must(run, h, s)
  {
    forall s: nat | s >= from ensures !Must(run, h, s) {
      if Must(run, h, s) {
        MustServe(run, h, s, t);
      }
    }
  }

  lemma OnList(modules: Modules, h: Option<nat>, s: nat)
    requires ServesAt(modules, h, s)
    ensures exists i :: 0 <= i < |modules| && modules[i].stamp == s && Serves(modules[i], h)
  {
  }

  /** The inner part of LUA_LSM_DEFINEx; `hasLua` is whether lvm_get finds a Lua state. */
  method Scan(run: seq<Board>, start: nat, c: Call, hasLua: bool) returns (err: int, ret: int, ghost called: seq<nat>)
    requires Run(run) && start < |run| && CallOk(c)
    ensures err == 0 && hasLua ==> FirstAnswer(run, c, ret)
    ensures exists from: nat :: CalledInOrder(run, c.hook, called, from)
    ensures hasLua && (ret == c.default_ || c.kind == Void) ==> forall s: nat :: Must(run, c.hook, s) ==> s in called
    ensures err == 0 && !hasLua ==> ret == c.default_ && forall s: nat :: !Must(run, c.hook, s)
    ensures err != 0 ==> !hasLua && MayCome(run, c.hook)
  {
    hide Run, BoardOk, ServesAt, Must, FirstAnswer;
    called := [];
    BoardAt(run, start);
    assert CalledInOrder(run, c.hook, called, 0);
    if HookCount(run[start].nhooks, c.hook) == 0 {
      forall s: nat ensures !Must(run, c.hook, s) {
        if Must(run, c.hook, s) {
          MustServe(run, c.hook, s, start);
          Covered(run[start], c.hook, s);
        }
      }
      NobodyMust(run, c);
      return 0, c.default_, [];
    }
    if !hasLua {
      Known(run[start], c.hook);
      assert ComesAt(run[start], c.hook);
      return -ENOMEM_ERRNO, c.default_, [];
    }
    err := 0;
    ret, called := Loop(run, start, c);
  }

  /**
   A hook: the outer part of LUA_LSM_DEFINEx. `run` is what happens to the modules and the counters meanwhile,
   `prepared` is the result of its __prepare function, and `failsWithErrno` is whether it is defined with ERRNO.
   With a Lua state at hand, both fast paths give what the scan of the whole list would. A void hook calls every
   module that must be called.
   */
  method RunHook(run: seq<Board>, c: Call, prepared: int, hasLua: bool, failsWithErrno: bool)
    returns (ret: int, ghost called: seq<nat>)
    requires Run(run) && CallOk(c)
    ensures prepared < 0 ==> ret == prepared
    ensures prepared >= 0 && hasLua ==> FirstAnswer(run, c, ret) && Verdict(run, c, ret)
    ensures prepared >= 0 ==> exists from: nat :: CalledInOrder(run, c.hook, called, from)
    ensures prepared >= 0 && hasLua && (ret == c.default_ || c.kind == Void) ==> forall s: nat :: Must(run, c.hook, s) ==> s in called
    ensures prepared >= 0 && !hasLua ==> ret == c.default_ || (ret == -12 && failsWithErrno && MayCome(run, c.hook))
    ensures prepared >= 0 && !hasLua && failsWithErrno && (exists s: nat :: Must(run, c.hook, s)) ==> ret == -12
  {
    hide Run, BoardOk, ServesAt, Must, FirstAnswer, Verdict;
    ret, called := prepared, [];
    if ret >= 0 {
      RunStarts(run);
      assert CalledInOrder(run, c.hook, called, 0);
      var t := Later(run, 0);
      if run[t].active > 0 {
        t := Later(run, t);
        var err, answer;
        err, answer, called := Scan(run, t, c, hasLua);
        if err != 0 {
          ret := if failsWithErrno then -ENOMEM_ERRNO else c.default_;
        } else {
          ret := answer;
        }
      } else {
        BoardAt(run, t);
        forall s: nat ensures !Must(run, c.hook, s) {
          if Must(run, c.hook, s) {
            MustServe(run, c.hook, s, t);
            Covered(run[t], c.hook, s);
          }
        }
        NobodyMust(run, c);
        ret := c.default_;
      }
      if hasLua {
        FirstVerdict(run, c, ret);
      }
    }
  }

  /** When nobody must be asked, the default is right. */
  lemma NobodyMust(run: seq<Board>, c: Call)
    requires run != [] && forall s: nat :: !Must(run, c.hook, s)
    ensures FirstAnswer(run, c, c.default_)
  {
    assert forall s: nat :: Silent(run, c, s);
  }

  lemma RunStarts(run: seq<Board>)
    requires Run(run)
    ensures run != []
  {
  }
}
