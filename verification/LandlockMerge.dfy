/**
 What merging a ruleset into a domain means: ruleset.c, seen through the rules it leaves behind,
 and the rights that landlock_append_fs_rule (fs.c) adds on its own.
 */
module LandlockMerge {
  import opened Basics
  import opened LandlockPolicy

  /** The layers of a rule of a domain with `n` layers: from the bottom up, each at most once. */
  predicate Increasing(rule: Rule, n: nat)
  {
    && rule != []
    && (forall i :: 0 <= i < |rule| ==> 1 <= rule[i].level <= n)
    && (forall i, j :: 0 <= i < j < |rule| ==> rule[i].level < rule[j].level)
  }

  lemma {:induction false} LevelsAtLeast(rule: Rule, n: nat, i: nat)
    requires Increasing(rule, n) && i < |rule|
    ensures i + 1 <= rule[i].level
  {
    if i > 0 {
      LevelsAtLeast(rule, n, i - 1);
    }
  }

  predicate DomainRules(rules: map<Object, Rule>, n: nat)
  {
    forall o <- rules :: Increasing(rules[o], n)
  }

  /** What user space builds: per object a single layer, which has no level yet. */
  predicate UserRules(rules: map<Object, Rule>)
  {
    forall o <- rules :: |rules[o]| == 1 && rules[o][0].level == 0
  }

  // ---------------------------------------------------------------- one rule

  /** When insert_rule refuses to touch an existing rule. */
  predicate Misfit(rules: map<Object, Rule>, o: Object, layers: Rule)
    requires layers != [] && (o in rules ==> rules[o] != [])
  {
    o in rules && (|layers| != 1 || (layers[0].level == 0 && |rules[o]| != 1) || (layers[0].level == 0) != (rules[o][0].level == 0))
  }

  /** The rules after a successful insert_rule. */
  function Inserted(rules: map<Object, Rule>, o: Object, layers: Rule): map<Object, Rule>
    requires layers != [] && (o in rules ==> rules[o] != []) && !Misfit(rules, o, layers)
  {
    if o !in rules then rules[o := layers]
    else if layers[0].level == 0 then rules[o := [Layer(0, rules[o][0].access + layers[0].access)]]
    else rules[o := rules[o] + layers]
  }

  // ---------------------------------------------------------------- a whole ruleset

  /** The rules of a domain with one more layer at `level`, which grants what `src` grants. */
  function AddLayer(rules: map<Object, Rule>, src: map<Object, Rule>, level: nat): map<Object, Rule>
    requires UserRules(src)
  {
    map o | o in rules.Keys + src.Keys ::
      (if o in rules then rules[o] else []) + (if o in src then [Layer(level, src[o][0].access)] else [])
  }

  function Handled(parent: Option<Domain>): seq<AccessMask>
  {
    if parent.Some? then parent.value.handled else []
  }

  function Rules(parent: Option<Domain>): map<Object, Rule>
  {
    if parent.Some? then parent.value.rules else map[]
  }

  /** The domain that landlock_merge_ruleset promises. */
  function Merged(parent: Option<Domain>, rs: Domain): Domain
    requires |rs.handled| == 1 && UserRules(rs.rules)
  {
    Domain(Handled(parent) + rs.handled, AddLayer(Rules(parent), rs.rules, |Handled(parent)| + 1))
  }

  /** The rules for the objects in `done`. */
  function Part(src: map<Object, Rule>, done: set<Object>): (part: map<Object, Rule>)
    requires done <= src.Keys
    ensures part.Keys == done && (UserRules(src) ==> UserRules(part))
  {
    map o | o in done :: src[o]
  }

  lemma UserRule(rules: map<Object, Rule>, o: Object)
    requires UserRules(rules) && o in rules
    ensures |rules[o]| == 1 && rules[o][0].level == 0
  {
  }

  lemma DomainRule(rules: map<Object, Rule>, n: nat, o: Object)
    requires DomainRules(rules, n) && o in rules
    ensures rules[o] != []
  {
  }

  lemma PartStep(src: map<Object, Rule>, todo: set<Object>, o: Object)
    requires todo <= src.Keys && o in todo
    ensures Part(src, src.Keys - (todo - {o})) == Part(src, src.Keys - todo)[o := src[o]]
    ensures src.Keys - (todo - {o}) == src.Keys - todo + {o}
  {
  }

  lemma PartEnds(rules: map<Object, Rule>, src: map<Object, Rule>, level: nat)
    requires UserRules(src)
    ensures Part(src, src.Keys - {}) == src
    ensures AddLayer(rules, Part(src, src.Keys - src.Keys), level) == rules
  {
    assert src.Keys - src.Keys == {};
    assert Part(src, {}) == map[];
    var after := AddLayer(rules, map[], level);
    assert after.Keys == rules.Keys;
    assert forall o <- rules :: after[o] == rules[o];
  }

  /** Merging one rule after the other, in any order, adds up to the layer. */
  lemma InsertAddLayer(rules: map<Object, Rule>, n: nat, src: map<Object, Rule>, done: set<Object>, o: Object)
    requires DomainRules(rules, n) && UserRules(src) && done <= src.Keys && o in src.Keys - done
    ensures var before, layers := AddLayer(rules, Part(src, done), n + 1), [Layer(n + 1, src[o][0].access)];
            && (o in before ==> before[o] != [])
            && !Misfit(before, o, layers)
            && Inserted(before, o, layers) == AddLayer(rules, Part(src, done + {o}), n + 1)
  {
    var before, after := AddLayer(rules, Part(src, done), n + 1), AddLayer(rules, Part(src, done + {o}), n + 1);
    var layers := [Layer(n + 1, src[o][0].access)];
    if o in rules {
      assert before[o] == rules[o] && after[o] == rules[o] + layers;
    } else {
      assert o !in before && after[o] == layers;
    }
    forall k | k in before && k != o ensures k in after && after[k] == before[k] {
    }
    assert after == before[o := after[o]];
  }

  /** A merged rule is the rule of the parent with at most one more entry, of the new level. */
  lemma MergedRules(rules: map<Object, Rule>, n: nat, src: map<Object, Rule>)
    requires DomainRules(rules, n) && UserRules(src)
    ensures var after := AddLayer(rules, src, n + 1);
            && DomainRules(after, n + 1)
            && after.Keys == rules.Keys + src.Keys
            && forall o <- after ::
              && (o in rules ==> rules[o] <= after[o] && |after[o]| <= |rules[o]| + 1)
              && (o !in rules ==> |after[o]| == 1)
  {
  }

  function RuleOf(rules: map<Object, Rule>, o: Object): Rule
  {
    if o in rules then rules[o] else []
  }

  /** What a ruleset adds for `o` at a level. */
  function NewLayer(rs: Domain, o: Object, level: nat): Rule
    requires UserRules(rs.rules)
  {
    if o in rs.rules then [Layer(level, rs.rules[o][0].access)] else []
  }

  lemma MergedRule(parent: Option<Domain>, rs: Domain, o: Object)
    requires |rs.handled| == 1 && UserRules(rs.rules)
    ensures RuleOf(Merged(parent, rs).rules, o) == RuleOf(Rules(parent), o) + NewLayer(rs, o, |Handled(parent)| + 1)
  {
  }

  lemma GrantsAt(dom: Domain, d: Dentry, l: nat, r: Right)
    ensures Grants(dom, d, l, r) <==> d.Positive? && d.obj.Some? && RuleGrants(RuleOf(dom.rules, d.obj.value), l, r)
  {
  }

  lemma RuleGrantsConcat(a: Rule, b: Rule, l: nat, r: Right)
    ensures RuleGrants(a + b, l, r) <==> RuleGrants(a, l, r) || RuleGrants(b, l, r)
  {
    if RuleGrants(a, l, r) {
      var i :| 0 <= i < |a| && a[i].level == l + 1 && r in a[i].access;
      assert (a + b)[i] == a[i];
    }
    if RuleGrants(b, l, r) {
      var i :| 0 <= i < |b| && b[i].level == l + 1 && r in b[i].access;
      assert (a + b)[|a| + i] == b[i];
    }
  }

  lemma NewLayerGrants(rs: Domain, o: Object, level: nat, l: nat, r: Right)
    requires UserRules(rs.rules)
    ensures RuleGrants(NewLayer(rs, o, level), l, r) <==> level == l + 1 && o in rs.rules && r in rs.rules[o][0].access
  {
    if o in rs.rules {
      assert NewLayer(rs, o, level)[0].level == level;
    }
  }

  /** The layers of the parent grant nothing at the level of the new one. */
  lemma BelowGrants(rules: map<Object, Rule>, o: Object, n: nat, r: Right)
    requires DomainRules(rules, n)
    ensures !RuleGrants(RuleOf(rules, o), n, r)
  {
    if o in rules {
      assert Increasing(rules[o], n);
    }
  }

  lemma MergedGrants(parent: Option<Domain>, rs: Domain, d: Dentry, l: nat, r: Right)
    requires |rs.handled| == 1 && UserRules(rs.rules)
    requires DomainRules(Rules(parent), |Handled(parent)|)
    ensures parent.Some? && l < |Handled(parent)| ==> (Grants(Merged(parent, rs), d, l, r) <==> Grants(parent.value, d, l, r))
    ensures Grants(Merged(parent, rs), d, |Handled(parent)|, r) <==> Grants(Merged(None, rs), d, 0, r)
  {
    hide Merged, AddLayer, UserRules, DomainRules, RuleGrants, RuleOf, NewLayer, Grants;
    var n := |Handled(parent)|;
    GrantsAt(Merged(parent, rs), d, l, r);
    GrantsAt(Merged(parent, rs), d, n, r);
    GrantsAt(Merged(None, rs), d, 0, r);
    if parent.Some? {
      GrantsAt(parent.value, d, l, r);
    }
    if d.Positive? && d.obj.Some? {
      var o := d.obj.value;
      MergedRule(parent, rs, o);
      MergedRule(None, rs, o);
      NoRule(o, 0, r);
      BelowGrants(Rules(parent), o, n, r);
      RuleGrantsConcat(RuleOf(Rules(parent), o), NewLayer(rs, o, n + 1), l, r);
      RuleGrantsConcat(RuleOf(Rules(parent), o), NewLayer(rs, o, n + 1), n, r);
      RuleGrantsConcat(RuleOf(map[], o), NewLayer(rs, o, 1), 0, r);
      NewLayerGrants(rs, o, n + 1, l, r);
      NewLayerGrants(rs, o, n + 1, n, r);
      NewLayerGrants(rs, o, 1, 0, r);
    }
  }

  lemma NoRule(o: Object, l: nat, r: Right)
    ensures !RuleGrants(RuleOf(map[], o), l, r)
  {
  }

  /** Merging is conjunction: the layers below decide as the parent, the new one as the ruleset alone. */
  lemma MergeIsConjunction(parent: Domain, rs: Domain, path: seq<Dentry>, request: AccessMask)
    requires |rs.handled| == 1 && UserRules(rs.rules)
    requires DomainRules(parent.rules, |parent.handled|)
    ensures Allowed(Merged(Some(parent), rs), path, request)
        <==> Allowed(parent, path, request) && Allowed(Merged(None, rs), path, request)
  {
    var n, dom, alone := |parent.handled|, Merged(Some(parent), rs), Merged(None, rs);
    forall r: Right, l: nat
      ensures l < n ==> (GrantedOn(dom, path, l, r) <==> GrantedOn(parent, path, l, r))
      ensures GrantedOn(dom, path, n, r) <==> GrantedOn(alone, path, 0, r)
    {
      forall i | 0 <= i < |path|
        ensures l < n ==> (Grants(dom, path[i], l, r) <==> Grants(parent, path[i], l, r))
        ensures Grants(dom, path[i], n, r) <==> Grants(alone, path[i], 0, r)
      {
        MergedGrants(Some(parent), rs, path[i], l, r);
      }
    }
    forall r: Right ensures Handles(dom, n, r) <==> Handles(alone, 0, r) {
    }
    forall r: Right, l: nat | l < n ensures Handles(dom, l, r) <==> Handles(parent, l, r) {
    }
    if Allowed(dom, path, request) {
      assert Allowed(parent, path, request);
      assert Allowed(alone, path, request);
    }
  }

  // ---------------------------------------------------------------- absolute access rights

  /** The rights that landlock_append_fs_rule stores for the `rights` that it was asked for. */
  function Absolute(rights: AccessMask, handled: AccessMask): AccessMask
  {
    rights + (MASK_ACCESS_FS - (handled + ACCESS_INITIALLY_DENIED))
  }

  function Appended(rs: Domain, o: Object, rights: AccessMask): Domain
    requires UserRules(rs.rules)
  {
    rs.(rules := Inserted(rs.rules, o, [Layer(0, rights)]))
  }

  /** Two domains whose rules agree on every right that the layers restrict decide alike. */
  lemma SameDecisions(a: Domain, b: Domain, path: seq<Dentry>, request: AccessMask)
    requires a.handled == b.handled
    requires forall d, l: nat, r :: Handles(a, l, r) ==> (Grants(a, d, l, r) <==> Grants(b, d, l, r))
    ensures Allowed(a, path, request) <==> Allowed(b, path, request)
  {
    forall r, l: nat | Handles(a, l, r) ensures GrantedOn(a, path, l, r) <==> GrantedOn(b, path, l, r) {
    }
  }

  /** The rule of a ruleset for `d` grants `r`. */
  predicate UserGrants(rs: Domain, d: Dentry, r: Right)
  {
    FindRule(rs, d).Some? && FindRule(rs, d).value != [] && r in FindRule(rs, d).value[0].access
  }

  lemma AloneGrants(rs: Domain, d: Dentry, r: Right)
    requires |rs.handled| == 1 && UserRules(rs.rules)
    ensures Grants(Merged(None, rs), d, 0, r) <==> UserGrants(rs, d, r)
  {
    var dom := Merged(None, rs);
    if FindRule(rs, d).Some? {
      var o := d.obj.value;
      assert dom.rules[o] == [Layer(1, rs.rules[o][0].access)];
      assert dom.rules[o][0].level == 1;
    }
  }

  lemma AppendedUser(rs: Domain, o: Object, rights: AccessMask)
    requires UserRules(rs.rules)
    ensures UserRules(Appended(rs, o, rights).rules) && Appended(rs, o, rights).handled == rs.handled
    ensures Appended(rs, o, rights).rules.Keys == rs.rules.Keys + {o}
    ensures forall k <- rs.rules :: k != o ==> Appended(rs, o, rights).rules[k] == rs.rules[k]
    ensures Appended(rs, o, rights).rules[o][0].access == (if o in rs.rules then rs.rules[o][0].access else {}) + rights
  {
  }

  /** One call of landlock_append_fs_rule. */
  datatype FsRule = FsRule(o: Object, rights: AccessMask)

  /** The rights that a call stores, with or without those that are added to them. */
  function Stored(call: FsRule, handled: AccessMask, absolute: bool): AccessMask
  {
    if absolute then Absolute(call.rights, handled) else call.rights
  }

  /** The ruleset after any sequence of calls. */
  function Build(rs: Domain, calls: seq<FsRule>, absolute: bool): (built: Domain)
    requires |rs.handled| == 1 && UserRules(rs.rules)
    ensures UserRules(built.rules) && built.handled == rs.handled
    decreases |calls|
  {
    if calls == [] then rs
    else
      var last := calls[|calls| - 1];
      var before := Build(rs, calls[..|calls| - 1], absolute);
      AppendedUser(before, last.o, Stored(last, rs.handled[0], absolute));
      Appended(before, last.o, Stored(last, rs.handled[0], absolute))
  }

  /** The same objects have rules, and the rules agree on the rights that the ruleset handles, and on REFER. */
  ghost predicate Agree(a: Domain, b: Domain)
    requires |a.handled| == 1 && UserRules(a.rules) && UserRules(b.rules)
  {
    && a.handled == b.handled && a.rules.Keys == b.rules.Keys
    && forall o <- a.rules, r: Right :: r in a.handled[0] + ACCESS_INITIALLY_DENIED ==>
         (r in a.rules[o][0].access <==> r in b.rules[o][0].access)
  }

  lemma AgreeAppended(a: Domain, b: Domain, call: FsRule)
    requires |a.handled| == 1 && UserRules(a.rules) && UserRules(b.rules) && Agree(a, b)
    ensures var a', b' := Appended(a, call.o, Stored(call, a.handled[0], true)), Appended(b, call.o, Stored(call, a.handled[0], false));
            UserRules(a'.rules) && UserRules(b'.rules) && a'.handled == a.handled && Agree(a', b')
  {
    AppendedUser(a, call.o, Stored(call, a.handled[0], true));
    AppendedUser(b, call.o, Stored(call, a.handled[0], false));
    var a', b' := Appended(a, call.o, Stored(call, a.handled[0], true)), Appended(b, call.o, Stored(call, a.handled[0], false));
    forall o <- a'.rules, r: Right | r in a'.handled[0] + ACCESS_INITIALLY_DENIED
      ensures r in a'.rules[o][0].access <==> r in b'.rules[o][0].access
    {
      assert r in Absolute(call.rights, a.handled[0]) <==> r in call.rights;
      if o != call.o {
        assert o in a.rules && o in b.rules;
      }
    }
  }

  lemma {:induction false} BuildAgrees(rs: Domain, calls: seq<FsRule>)
    requires |rs.handled| == 1 && UserRules(rs.rules)
    ensures Agree(Build(rs, calls, true), Build(rs, calls, false))
    decreases |calls|
  {
    if calls != [] {
      var earlier := calls[..|calls| - 1];
      BuildAgrees(rs, earlier);
      AgreeAppended(Build(rs, earlier, true), Build(rs, earlier, false), calls[|calls| - 1]);
    }
  }

  lemma AgreeUserGrants(a: Domain, b: Domain, d: Dentry, r: Right)
    requires |a.handled| == 1 && UserRules(a.rules) && UserRules(b.rules) && Agree(a, b)
    requires r in a.handled[0] + ACCESS_INITIALLY_DENIED
    ensures UserGrants(a, d, r) <==> UserGrants(b, d, r)
  {
    if d.Positive? && d.obj.Some? && d.obj.value in a.rules {
      UserRule(a.rules, d.obj.value);
      UserRule(b.rules, d.obj.value);
    }
  }

  lemma AbsoluteGrants(parent: Option<Domain>, a: Domain, b: Domain, d: Dentry, l: nat, r: Right)
    requires |a.handled| == 1 && UserRules(a.rules) && UserRules(b.rules) && Agree(a, b)
    requires DomainRules(Rules(parent), |Handled(parent)|)
    requires Handles(Merged(parent, a), l, r)
    ensures Grants(Merged(parent, a), d, l, r) <==> Grants(Merged(parent, b), d, l, r)
  {
    var n := |Handled(parent)|;
    hide AddLayer, Grants, UserGrants, UserRules, DomainRules;
    MergedGrants(parent, a, d, l, r);
    MergedGrants(parent, b, d, l, r);
    if l == n {
      AloneGrants(a, d, r);
      AloneGrants(b, d, r);
      AgreeUserGrants(a, b, d, r);
    } else {
      assert parent.Some?;
    }
  }

  lemma AgreeDecides(parent: Option<Domain>, a: Domain, b: Domain, path: seq<Dentry>, request: AccessMask)
    requires |a.handled| == 1 && UserRules(a.rules) && UserRules(b.rules) && Agree(a, b)
    requires DomainRules(Rules(parent), |Handled(parent)|)
    ensures Allowed(Merged(parent, a), path, request) <==> Allowed(Merged(parent, b), path, request)
  {
    forall d, l: nat, r | Handles(Merged(parent, a), l, r)
      ensures Grants(Merged(parent, a), d, l, r) <==> Grants(Merged(parent, b), d, l, r)
    {
      AbsoluteGrants(parent, a, b, d, l, r);
    }
    SameDecisions(Merged(parent, a), Merged(parent, b), path, request);
  }

  /** The rights that landlock_append_fs_rule adds, in every one of its calls, change no decision of the merged domain. */
  lemma AbsoluteChangesNothing(parent: Option<Domain>, rs: Domain, calls: seq<FsRule>, path: seq<Dentry>, request: AccessMask)
    requires |rs.handled| == 1 && UserRules(rs.rules)
    requires DomainRules(Rules(parent), |Handled(parent)|)
    ensures Allowed(Merged(parent, Build(rs, calls, true)), path, request)
        <==> Allowed(Merged(parent, Build(rs, calls, false)), path, request)
  {
    BuildAgrees(rs, calls);
    AgreeDecides(parent, Build(rs, calls, true), Build(rs, calls, false), path, request);
  }

  // ---------------------------------------------------------------- whole domains

  /** What user space enforces, one after the other: the handled rights of a ruleset, and the rules appended to it. */
  datatype Sheet = Sheet(handled: AccessMask, calls: seq<FsRule>)

  function Sheeted(sheet: Sheet, absolute: bool): (rs: Domain)
    ensures |rs.handled| == 1 && UserRules(rs.rules)
  {
    Build(Domain([sheet.handled], map[]), sheet.calls, absolute)
  }

  /** The domain of a task that has enforced `sheets`. */
  function Enforced(sheets: seq<Sheet>, absolute: bool): (dom: Option<Domain>)
    ensures DomainRules(Rules(dom), |Handled(dom)|) && |Handled(dom)| == |sheets| && (dom.None? <==> sheets == [])
    decreases |sheets|
  {
    if sheets == [] then None
    else
      var parent, rs := Enforced(sheets[..|sheets| - 1], absolute), Sheeted(sheets[|sheets| - 1], absolute);
      MergedRules(Rules(parent), |Handled(parent)|, rs.rules);
      Some(Merged(parent, rs))
  }

  /** Nor do they change any decision of a domain that was built with them, layer upon layer. */
  lemma {:induction false} AbsoluteEverywhere(sheets: seq<Sheet>, path: seq<Dentry>, request: AccessMask)
    requires sheets != []
    ensures Allowed(Enforced(sheets, true).value, path, request) <==> Allowed(Enforced(sheets, false).value, path, request)
    decreases |sheets|
  {
    var below, top := sheets[..|sheets| - 1], sheets[|sheets| - 1];
    var rs := Domain([top.handled], map[]);
    AbsoluteChangesNothing(None, rs, top.calls, path, request);
    if below != [] {
      AbsoluteEverywhere(below, path, request);
      MergeIsConjunction(Enforced(below, true).value, Sheeted(top, true), path, request);
      MergeIsConjunction(Enforced(below, false).value, Sheeted(top, false), path, request);
    }
  }

  // ---------------------------------------------------------------- what user space gets

  /** The object of `d` has been given `r` by one of the calls. */
  predicate Given(calls: seq<FsRule>, d: Dentry, r: Right)
  {
    exists c :: 0 <= c < |calls| && d.Positive? && d.obj == Some(calls[c].o) && r in calls[c].rights
  }

  lemma {:induction false} BuiltGrants(rs: Domain, calls: seq<FsRule>, d: Dentry, r: Right)
    requires |rs.handled| == 1 && UserRules(rs.rules)
    ensures UserGrants(Build(rs, calls, false), d, r) <==> UserGrants(rs, d, r) || Given(calls, d, r)
    decreases |calls|
  {
    if calls != [] {
      var earlier, last := calls[..|calls| - 1], calls[|calls| - 1];
      BuiltGrants(rs, earlier, d, r);
      var before := Build(rs, earlier, false);
      AppendedUser(before, last.o, last.rights);
      AppendedGrants(before, last, d, r);
      GivenMore(earlier, last, d, r);
      assert earlier + [last] == calls;
    }
  }

  lemma AppendedGrants(rs: Domain, call: FsRule, d: Dentry, r: Right)
    requires UserRules(rs.rules)
    ensures UserGrants(Appended(rs, call.o, call.rights), d, r) <==>
            UserGrants(rs, d, r) || (d.Positive? && d.obj == Some(call.o) && r in call.rights)
  {
    AppendedUser(rs, call.o, call.rights);
  }

  lemma GivenMore(calls: seq<FsRule>, call: FsRule, d: Dentry, r: Right)
    ensures Given(calls + [call], d, r) <==> Given(calls, d, r) || (d.Positive? && d.obj == Some(call.o) && r in call.rights)
  {
    var more := calls + [call];
    if Given(calls, d, r) {
      var c :| 0 <= c < |calls| && d.Positive? && d.obj == Some(calls[c].o) && r in calls[c].rights;
      assert more[c] == calls[c];
    }
    assert more[|calls|] == call;
  }

  /** One ruleset, as user space describes it, lets the request pass: each right that it restricts is given on the path. */
  ghost predicate SheetAllows(sheet: Sheet, path: seq<Dentry>, request: AccessMask)
  {
    forall r :: r in request && (r in sheet.handled || r == REFER) ==> exists k :: 0 <= k < |path| && Given(sheet.calls, path[k], r)
  }

  lemma AloneMeans(sheet: Sheet, path: seq<Dentry>, request: AccessMask)
    ensures Allowed(Merged(None, Sheeted(sheet, false)), path, request) <==> SheetAllows(sheet, path, request)
  {
    var rs := Sheeted(sheet, false);
    var dom := Merged(None, rs);
    assert dom.handled == [sheet.handled];
    forall r ensures GrantedOn(dom, path, 0, r) <==> exists k :: 0 <= k < |path| && Given(sheet.calls, path[k], r) {
      forall d ensures Grants(dom, d, 0, r) <==> Given(sheet.calls, d, r) {
        AloneGrants(rs, d, r);
        BuiltGrants(Domain([sheet.handled], map[]), sheet.calls, d, r);
      }
    }
    hide GrantedOn, Given, Sheeted, Merged;
    assert forall l: nat, r: Right :: Handles(dom, l, r) <==> l == 0 && (r in sheet.handled || r == REFER);
    assert Allowed(dom, path, request) <==> forall r :: r in request && Handles(dom, 0, r) ==> GrantedOn(dom, path, 0, r);
  }

  /**
   The decisions of a task's domain, from the calls that user space has made: a request is allowed exactly if every
   ruleset that the task has enforced lets it pass.
   */
  lemma {:induction false} EnforcedMeans(sheets: seq<Sheet>, path: seq<Dentry>, request: AccessMask)
    requires sheets != []
    ensures Allowed(Enforced(sheets, true).value, path, request) <==> forall s :: 0 <= s < |sheets| ==> SheetAllows(sheets[s], path, request)
    decreases |sheets|
  {
    hide Allowed, SheetAllows, Build;
    var below, top := sheets[..|sheets| - 1], sheets[|sheets| - 1];
    AbsoluteChangesNothing(None, Domain([top.handled], map[]), top.calls, path, request);
    AloneMeans(top, path, request);
    if below != [] {
      EnforcedMeans(below, path, request);
      MergeIsConjunction(Enforced(below, true).value, Sheeted(top, true), path, request);
      assert forall s :: 0 <= s < |below| ==> sheets[s] == below[s];
    }
  }
}
