/** What a forked child inherits, and that it runs its body as its parent would. */
module ForkedRuns {
  import opened Options
  import opened Text
  import opened Ir
  import opened Executor
  import opened Programs
  import opened WorkerSteps

  /** A backend whose answer depends on the text and the request only. */
  ghost predicate Textual(b: Backend) {
    forall x: Call, y: Call :: x.text == y.text && x.request == y.request ==>
      b.generate(x) == b.generate(y) && b.generateStream(x) == b.generateStream(y) && b.select(x) == b.select(y)
  }

  /** Executors that a program cannot tell apart. Of their events only those of open scopes matter. */
  ghost predicate Twins(s: Exec, d: Exec) {
    && s.text == d.text && s.messages == d.messages && s.curRole == d.curRole && s.beginPos == d.beginPos
    && s.variables == d.variables && s.images == d.images && s.curImages == d.curImages && s.raised == d.raised
    && s.specTokens.None? && d.specTokens.None?
    && forall name :: name in s.variables && s.variables[name].Pos? ==> (name in s.events <==> name in d.events)
  }

  /** Both have the events of these variables. */
  predicate Have(s: Exec, d: Exec, names: set<string>) { names <= s.events.Keys && names <= d.events.Keys }

  /** A new child has what its parent has, but no surplus, no events and no open images. */
  lemma ChildInherits(s: Exec, i: nat)
    ensures var kid := ForkChild(s, i);
            && kid.text == s.text && kid.messages == s.messages && kid.variables == s.variables && kid.images == s.images
            && kid.curRole == s.curRole && kid.beginPos == s.beginPos && kid.forkPos == Some(|s.text|)
            && kid.events == map[] && kid.curImages == [] && kid.speculated == "" && kid.specTokens == None
            && kid.calls == [] && kid.forks == 0 && !kid.raised && kid.sid == s.sid + [s.forks, i]
  {}

  /** Without open images or scopes, a child and its direct parent are twins. */
  lemma ChildIsTwin(s: Exec, i: nat)
    requires !s.raised && s.specTokens.None? && s.curImages == []
    requires forall name :: name in s.variables ==> !s.variables[name].Pos?
    ensures Twins(ForkChild(s, i), s)
  {
    ChildInherits(s, i);
  }

  // ---------- Expressions ----------

  lemma {:induction false} KvTwins(s: Exec, d: Exec, kids: seq<Kid>, origin: nat)
    requires Twins(s, d)
    ensures Twins(ConcatenateKv(s, kids, origin), ConcatenateKv(d, kids, origin))
    decreases |kids|
  {
    if kids != [] && kids[0].forkPos == Some(origin) {
      KvTwins(s.(text := s.text + Addition(kids[0])), d.(text := d.text + Addition(kids[0])), kids[1..], origin);
    }
  }

  lemma FillTwins(s: Exec, d: Exec, value: string)
    requires Twins(s, d)
    ensures Twins(Fill(s, value), Fill(d, value))
  {}

  lemma RoleEndTwins(c: Config, s: Exec, d: Exec, role: string)
    requires Twins(s, d)
    ensures Twins(ExecuteRoleEnd(c, s, role), ExecuteRoleEnd(c, d, role))
  {
    assert Content(s) == Content(d);
  }

  lemma EnterRoleTwins(c: Config, s: Exec, d: Exec, role: string)
    requires Twins(s, d)
    ensures Twins(EnterRole(c, s, role), EnterRole(c, d, role))
  {}

  lemma RoleBeginTwins(c: Config, s: Exec, d: Exec, role: string)
    requires Twins(s, d)
    ensures Twins(ExecuteRoleBegin(c, s, role), ExecuteRoleBegin(c, d, role))
  {
    if s.curRole.None? {
      if NeedsDefaultSystem(c, s, role) {
        var prompt := c.template.defaultSystem.value;
        EnterRoleTwins(c, s, d, "system");
        FillTwins(EnterRole(c, s, "system"), EnterRole(c, d, "system"), prompt);
        RoleEndTwins(c, Fill(EnterRole(c, s, "system"), prompt), Fill(EnterRole(c, d, "system"), prompt), "system");
      }
      EnterRoleTwins(c, Ready(c, s, role), Ready(c, d, role), role);
    }
  }

  lemma PublishTwins(s: Exec, d: Exec, name: string, addition: string, value: Value)
    requires Twins(s, d) && Have(s, d, {name}) && !value.Pos?
    ensures Twins(Publish(s, name, addition, value), Publish(d, name, addition, value))
  {
    assert name in s.events && name in d.events;
  }

  lemma GenTwins(c: Config, b: Backend, s: Exec, d: Exec, name: string, params: Params)
    requires Textual(b) && Twins(s, d) && Have(s, d, {name})
    ensures Twins(ExecuteGen(c, b, s, name, params), ExecuteGen(c, b, d, name, params))
  {
    assert name in s.events && name in d.events;
    var (x, y) := (Ask(s, if c.stream then ForStream(params) else ForGen(params)), Ask(d, if c.stream then ForStream(params) else ForGen(params)));
    var (askedS, askedD) := (s.(calls := s.calls + [x]), d.(calls := d.calls + [y]));
    if c.stream {
      var all := Join(b.generateStream(x));
      PublishTwins(askedS, askedD, name, all, Str(all));
    } else {
      match b.generate(x)
      case One(comp) => PublishTwins(askedS, askedD, name, comp, Str(comp));
      case Several(comps) =>
        if comps != [] {
          PublishTwins(askedS, askedD, name, comps[0], Many(Strs(comps)));
        }
    }
  }

  lemma SelectTwins(b: Backend, s: Exec, d: Exec, name: Option<string>, choices: seq<string>)
    requires Textual(b) && Twins(s, d) && (name.Some? ==> Have(s, d, {name.value}))
    ensures Twins(ExecuteSelect(b, s, name, choices), ExecuteSelect(b, d, name, choices))
  {
    assert b.select(Ask(s, ForSelect(choices))) == b.select(Ask(d, ForSelect(choices)));
    if name.Some? {
      assert name.value in s.events && name.value in d.events;
    }
  }

  lemma ScopeEndTwins(s: Exec, d: Exec, name: string)
    requires Twins(s, d)
    ensures Twins(ExecuteVarScopeEnd(s, name), ExecuteVarScopeEnd(d, name))
  {}

  lemma {:induction false} ExecuteTwins(c: Config, b: Backend, s: Exec, d: Exec, e: Expr)
    requires Textual(b) && Twins(s, d) && Have(s, d, Announced(e))
    ensures Twins(Execute(c, b, s, e), Execute(c, b, d, e))
    decreases e, 1
  {
    if !s.raised {
      match e
      case ConstantText(value) => FillTwins(s, d, value);
      case Gen(name, params) => GenTwins(c, b, s, d, name, params);
      case Select(name, choices) => SelectTwins(b, s, d, name, choices);
      case ExprList(items) => ExecuteAllTwins(c, b, s, d, items);
      case RoleBegin(role) => RoleBeginTwins(c, s, d, role);
      case RoleEnd(role) => RoleEndTwins(c, s, d, role);
      case VarScopeBegin(name) => assert name in s.events && name in d.events;
      case VarScopeEnd(name) => ScopeEndTwins(s, d, name);
      case ConcateAndAppend(kids) =>
        if c.kvJoin {
          KvTwins(s, d, kids, |s.text|);
        } else {
          FillTwins(s, d, Additions(kids));
        }
      case _ =>
    }
  }

  lemma {:induction false} ExecuteAllTwins(c: Config, b: Backend, s: Exec, d: Exec, es: seq<Expr>)
    requires Textual(b) && Twins(s, d) && Have(s, d, AnnouncedAll(es))
    ensures Twins(ExecuteAll(c, b, s, es), ExecuteAll(c, b, d, es))
    decreases es, 0
  {
    if es != [] {
      ExecuteTwins(c, b, s, d, es[0]);
      EventNamesKept(c, b, s, es[0]);
      EventNamesKept(c, b, d, es[0]);
      ExecuteAllTwins(c, b, Execute(c, b, s, es[0]), Execute(c, b, d, es[0]), es[1..]);
    }
  }

  // ---------- Programs ----------

  ghost predicate TwinRans(x: Ran, y: Ran) { x.aborted == y.aborted && Twins(x.s, y.s) }

  lemma SubmitTwins(c: Config, b: Backend, s: Exec, d: Exec, v: Option<PyVal>)
    requires Textual(b) && Twins(s, d)
    ensures TwinRans(SubmitValue(c, b, s, v), SubmitValue(c, b, d, v))
  {
    if v.Some? {
      var names := Announced(ToExpr(v.value));
      ExecuteTwins(c, b, InitEvents(s, names), InitEvents(d, names), ToExpr(v.value));
    }
  }

  /** Children of twins, at the same place, end as twins with the same fork position. */
  ghost predicate TwinKids(xs: seq<Exec>, ys: seq<Exec>) {
    |xs| == |ys| && forall i :: 0 <= i < |xs| ==> Twins(xs[i], ys[i]) && xs[i].forkPos == ys[i].forkPos
  }

  lemma ChildrenOfTwins(s: Exec, d: Exec, i: nat)
    requires Twins(s, d)
    ensures Twins(ForkChild(s, i), ForkChild(d, i)) && ForkChild(s, i).forkPos == ForkChild(d, i).forkPos
  {}

  lemma {:induction false} FamilyTwins(c: Config, b: Backend, args: Arguments, s: Exec, d: Exec, bodies: seq<Body>)
    requires Textual(b) && Twins(s, d)
    ensures var (x, y) := (RunKids(c, b, args, s, bodies), RunKids(c, b, args, d, bodies));
            x.aborted == y.aborted && TwinKids(x.kids, y.kids)
    decreases bodies, 0
  {
    if bodies != [] {
      var last := |bodies| - 1;
      FamilyTwins(c, b, args, s, d, bodies[..last]);
      ChildrenOfTwins(s, d, last);
      RunTwins(c, b, args, ForkChild(s, last), ForkChild(d, last), bodies[last].stmts);
      RunGrows(c, b, args, ForkChild(s, last), bodies[last].stmts);
      RunGrows(c, b, args, ForkChild(d, last), bodies[last].stmts);
    }
  }

  lemma JoinTwins(c: Config, b: Backend, s: Exec, d: Exec, xs: seq<Exec>, ys: seq<Exec>, gather: bool)
    requires Textual(b) && Twins(s, d) && TwinKids(xs, ys)
    ensures Twins(AfterFamily(s, xs), AfterFamily(d, ys))
    ensures Twins(JoinFamily(c, b, s, xs, gather), JoinFamily(c, b, d, ys, gather))
  {
    assert KidsOf(xs) == KidsOf(ys);
    assert VariablesOf(xs) == VariablesOf(ys);
    if gather {
      GatheringOpensNoScope(s.variables, VariablesOf(xs));
    } else {
      ExecuteTwins(c, b, AfterFamily(s, xs), AfterFamily(d, ys), ConcateAndAppend(KidsOf(xs)));
    }
  }

  lemma GatheringOpensNoScope(src: map<string, Value>, kids: seq<map<string, Value>>)
    ensures forall name :: name in Gathered(src, kids) && Gathered(src, kids)[name].Pos? ==> name in src && src[name].Pos?
  {
    forall name | name in Gathered(src, kids) && Gathered(src, kids)[name].Pos?
      ensures name in src && src[name].Pos?
    {
      GatherCollectsNewNames(src, kids, name);
    }
  }

  lemma {:induction false} StmtTwins(c: Config, b: Backend, args: Arguments, s: Exec, d: Exec, stmt: Stmt)
    requires Textual(b) && Twins(s, d)
    ensures TwinRans(RunStmt(c, b, args, s, stmt), RunStmt(c, b, args, d, stmt))
    decreases stmt, 1
  {
    match stmt
    case Append(p) => SubmitTwins(c, b, s, d, Eval(args, s.variables, p));
    case RoleCall(role, p) => SubmitTwins(c, b, s, d, Eval(args, s.variables, InRole(role, p)));
    case IfArg(name, thn, els) => RunTwins(c, b, args, s, d, if args(name) != "" then thn.stmts else els.stmts);
    case IfArgMeets(name, test, _, thn, els) => RunTwins(c, b, args, s, d, if test(args(name)) then thn.stmts else els.stmts);
    case IfVarIs(name, lit, thn, els) =>
      var v := VarIs(s, name, lit);
      assert VarIs(d, name, lit) == v;
      if v.Some? {
        RunTwins(c, b, args, s, d, if v.value then thn.stmts else els.stmts);
      }
    case ForkJoin(bodies, gather) =>
      if !s.raised {
        FamilyTwins(c, b, args, s, d, bodies);
        JoinTwins(c, b, s, d, RunKids(c, b, args, s, bodies).kids, RunKids(c, b, args, d, bodies).kids, gather);
      }
  }

  lemma {:induction false} RunTwins(c: Config, b: Backend, args: Arguments, s: Exec, d: Exec, stmts: seq<Stmt>)
    requires Textual(b) && Twins(s, d)
    ensures TwinRans(Run(c, b, args, s, stmts), Run(c, b, args, d, stmts))
    decreases stmts, 0
  {
    if stmts != [] {
      var (x, y) := (RunStmt(c, b, args, s, stmts[0]), RunStmt(c, b, args, d, stmts[0]));
      StmtTwins(c, b, args, s, d, stmts[0]);
      if !x.aborted {
        RunTwins(c, b, args, x.s, y.s, stmts[1..]);
      }
    }
  }

  /** What child `i` of a fork has when its body has run is what the parent would have if it ran that body itself. */
  lemma ChildRunsAsParentWould(c: Config, b: Backend, args: Arguments, s: Exec, bodies: seq<Body>, i: nat)
    requires Textual(b) && i < |bodies|
    requires !s.raised && s.specTokens.None? && s.curImages == []
    requires forall name :: name in s.variables ==> !s.variables[name].Pos?
    ensures var (kid, own) := (RunKids(c, b, args, s, bodies).kids[i], Run(c, b, args, s, bodies[i].stmts).s);
            && kid.text == own.text && kid.messages == own.messages && kid.variables == own.variables && kid.images == own.images
            && kid.curRole == own.curRole && kid.raised == own.raised
  {
    KidIsRun(c, b, args, s, bodies, i);
    ChildIsTwin(s, i);
    RunTwins(c, b, args, ForkChild(s, i), s, bodies[i].stmts);
  }

  lemma {:induction false} KidIsRun(c: Config, b: Backend, args: Arguments, s: Exec, bodies: seq<Body>, i: nat)
    requires i < |bodies|
    ensures RunKids(c, b, args, s, bodies).kids[i] == Run(c, b, args, ForkChild(s, i), bodies[i].stmts).s
    decreases |bodies|
  {
    if i < |bodies| - 1 {
      KidIsRun(c, b, args, s, bodies[..|bodies| - 1], i);
    }
  }

  /** A child with an empty body is, in every field, a copy of its parent without surplus, events and open images. */
  lemma IdleChildIsACopy(c: Config, b: Backend, args: Arguments, s: Exec, bodies: seq<Body>, i: nat)
    requires i < |bodies| && bodies[i].stmts == []
    ensures var kid := RunKids(c, b, args, s, bodies).kids[i];
            && kid.text == s.text && kid.messages == s.messages && kid.variables == s.variables && kid.images == s.images
            && kid.curRole == s.curRole && kid.beginPos == s.beginPos && kid.forkPos == Some(|s.text|)
            && kid.events == map[] && kid.curImages == [] && kid.speculated == "" && kid.specTokens == None
  {
    KidIsRun(c, b, args, s, bodies, i);
    ChildInherits(s, i);
  }

  /** Joining by gathering writes nothing; a name the parent lacks lists the values of the children that have it, old names are kept. */
  lemma GatherJoin(c: Config, b: Backend, args: Arguments, s: Exec, bodies: seq<Body>, name: string)
    requires !s.raised && !RunKids(c, b, args, s, bodies).aborted
    ensures var (kids, joined) := (RunKids(c, b, args, s, bodies).kids, RunStmt(c, b, args, s, ForkJoin(bodies, true)).s);
            && joined.text == s.text && joined.messages == s.messages && joined.raised == s.raised
            && (name in s.variables ==> name in joined.variables && joined.variables[name] == s.variables[name])
            && (name !in s.variables && (forall i :: 0 <= i < |kids| ==> name in kids[i].variables) && kids != [] ==>
                  name in joined.variables && joined.variables[name].Many? && |joined.variables[name].items| == |kids| &&
                  forall i :: 0 <= i < |kids| ==> joined.variables[name].items[i] == kids[i].variables[name])
  {
    GatheredValues(s.variables, RunKids(c, b, args, s, bodies).kids, name);
  }

  lemma GatheredValues(src: map<string, Value>, kids: seq<Exec>, name: string)
    ensures var vars := Gathered(src, VariablesOf(kids));
            && (name in src ==> name in vars && vars[name] == src[name])
            && (name !in src && (forall i :: 0 <= i < |kids| ==> name in kids[i].variables) && kids != [] ==>
                  name in vars && vars[name].Many? && |vars[name].items| == |kids| &&
                  forall i :: 0 <= i < |kids| ==> vars[name].items[i] == kids[i].variables[name])
  {
    GatherCollectsNewNames(src, VariablesOf(kids), name);
    if (forall i :: 0 <= i < |kids| ==> name in kids[i].variables) {
      ValuesInChildOrder(VariablesOf(kids), name);
    }
  }
}
