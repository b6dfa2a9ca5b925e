/** Speculation under whole programs: branches on variables, and forks at any depth. */
module ProgramSpeculation {
  import opened Options
  import opened Ir
  import opened Executor
  import opened Programs
  import opened Speculation

  predicate ValueAllowed(c: Config, b: Backend, cont: Continuation, s: Exec, v: Option<PyVal>) {
    v.Some? ==> Allowed(c, b, cont, InitEvents(s, Announced(ToExpr(v.value))), ToExpr(v.value))
  }

  /** Every expression a program submits is allowed, and every join; children do not speculate. */
  predicate StmtAllowed(c: Config, b: Backend, cont: Continuation, args: Arguments, s: Exec, stmt: Stmt)
    decreases stmt, 1
  {
    match stmt
    case Append(p) => ValueAllowed(c, b, cont, s, Eval(args, s.variables, p))
    case RoleCall(role, p) => ValueAllowed(c, b, cont, s, Eval(args, s.variables, InRole(role, p)))
    case IfArg(name, thn, els) => RunAllowed(c, b, cont, args, s, if args(name) != "" then thn.stmts else els.stmts)
    case IfArgMeets(name, test, _, thn, els) => RunAllowed(c, b, cont, args, s, if test(args(name)) then thn.stmts else els.stmts)
    case IfVarIs(name, lit, thn, els) =>
      var v := VarIs(s, name, lit);
      v.Some? ==> RunAllowed(c, b, cont, args, s, if v.value then thn.stmts else els.stmts)
    case ForkJoin(kids, gather) =>
      s.raised || gather ||
      var family := RunKids(c, b, args, s, kids);
      family.aborted || Allowed(c, b, cont, AfterFamily(s, family.kids), ConcateAndAppend(KidsOf(family.kids)))
  }

  predicate RunAllowed(c: Config, b: Backend, cont: Continuation, args: Arguments, s: Exec, stmts: seq<Stmt>)
    decreases stmts, 0
  {
    stmts == [] ||
    var first := RunStmt(c, b, args, s, stmts[0]);
    StmtAllowed(c, b, cont, args, s, stmts[0]) && (first.aborted || RunAllowed(c, b, cont, args, first.s, stmts[1..]))
  }

  ghost predicate SameRan(cont: Continuation, x: Ran, y: Ran) {
    x.aborted == y.aborted && Same(cont, x.s, y.s)
  }

  /** What a program reads of its executor is the same. */
  lemma SameReads(cont: Continuation, s: Exec, d: Exec, i: nat)
    requires Same(cont, s, d)
    ensures s.variables == d.variables && s.events == d.events && s.raised == d.raised && s.forks == d.forks
    ensures ForkChild(s, i) == ForkChild(d, i)
  {
    var (x, y) := (Observed(s), Observed(d));
    assert s.variables == x.variables && s.events == x.events && s.raised == x.raised && s.forks == x.forks;
    assert ForkChild(s, i) == ForkChild(x, i) && ForkChild(d, i) == ForkChild(y, i);
  }

  lemma SubmitKeepsSame(c: Config, b: Backend, cont: Continuation, s: Exec, d: Exec, v: Option<PyVal>)
    requires PrefixConsistent(cont) && Follows(b, cont) && Same(cont, s, d) && !c.stream
    requires ValueAllowed(c, b, cont, s, v)
    ensures SameRan(cont, SubmitValue(c, b, s, v), SubmitValue(c, b, d, v))
  {
    if v.Some? {
      var e := ToExpr(v.value);
      SameReads(cont, s, d, 0);
      var (x, y) := (InitEvents(s, Announced(e)), InitEvents(d, Announced(e)));
      assert Observed(x) == InitEvents(Observed(s), Announced(e)) && Observed(y) == InitEvents(Observed(d), Announced(e));
      ExecuteKeepsSame(c, b, cont, x, y, e);
    }
  }

  lemma {:induction false} SameFamilies(c: Config, b: Backend, cont: Continuation, args: Arguments, s: Exec, d: Exec, kids: seq<Body>)
    requires Same(cont, s, d)
    ensures RunKids(c, b, args, s, kids) == RunKids(c, b, args, d, kids)
    decreases |kids|
  {
    if kids != [] {
      SameFamilies(c, b, cont, args, s, d, kids[..|kids| - 1]);
      SameReads(cont, s, d, |kids| - 1);
    }
  }

  lemma JoinKeepsSame(c: Config, b: Backend, cont: Continuation, s: Exec, d: Exec, kids: seq<Exec>, gather: bool)
    requires PrefixConsistent(cont) && Follows(b, cont) && Same(cont, s, d) && !c.stream
    requires gather || Allowed(c, b, cont, AfterFamily(s, kids), ConcateAndAppend(KidsOf(kids)))
    ensures Same(cont, AfterFamily(s, kids), AfterFamily(d, kids))
    ensures Same(cont, JoinFamily(c, b, s, kids, gather), JoinFamily(c, b, d, kids, gather))
  {
    SameReads(cont, s, d, 0);
    var (x, y) := (AfterFamily(s, kids), AfterFamily(d, kids));
    assert Observed(x) == Observed(s).(forks := s.forks + 1) && Observed(y) == Observed(d).(forks := d.forks + 1);
    if gather {
      var vars := Gathered(s.variables, VariablesOf(kids));
      assert Observed(x.(variables := vars)) == Observed(x).(variables := vars);
      assert Observed(y.(variables := vars)) == Observed(y).(variables := vars);
    } else {
      ExecuteKeepsSame(c, b, cont, x, y, ConcateAndAppend(KidsOf(kids)));
    }
  }

  lemma {:induction false} StmtKeepsSame(c: Config, b: Backend, cont: Continuation, args: Arguments, s: Exec, d: Exec, stmt: Stmt)
    requires PrefixConsistent(cont) && Follows(b, cont) && Same(cont, s, d) && !c.stream
    requires StmtAllowed(c, b, cont, args, s, stmt)
    ensures SameRan(cont, RunStmt(c, b, args, s, stmt), RunStmt(c, b, args, d, stmt))
    decreases stmt, 1
  {
    SameReads(cont, s, d, 0);
    match stmt
    case Append(p) => SubmitKeepsSame(c, b, cont, s, d, Eval(args, s.variables, p));
    case RoleCall(role, p) => SubmitKeepsSame(c, b, cont, s, d, Eval(args, s.variables, InRole(role, p)));
    case IfArg(name, thn, els) =>
      ProgramKeepsMeaning(c, b, cont, args, s, d, if args(name) != "" then thn.stmts else els.stmts);
    case IfArgMeets(name, test, _, thn, els) =>
      ProgramKeepsMeaning(c, b, cont, args, s, d, if test(args(name)) then thn.stmts else els.stmts);
    case IfVarIs(name, lit, thn, els) =>
      var v := VarIs(s, name, lit);
      if v.Some? {
        ProgramKeepsMeaning(c, b, cont, args, s, d, if v.value then thn.stmts else els.stmts);
      }
    case ForkJoin(kids, gather) =>
      if !s.raised {
        var family := RunKids(c, b, args, s, kids);
        SameFamilies(c, b, cont, args, s, d, kids);
        JoinKeepsSame(c, b, cont, s, d, family.kids, gather || family.aborted);
        if !family.aborted {
          JoinKeepsSame(c, b, cont, s, d, family.kids, gather);
        }
      }
  }

  /** Whole programs: a speculating run takes the same branches and ends with the same text, messages, variables and events as a direct one. */
  lemma {:induction false} ProgramKeepsMeaning(c: Config, b: Backend, cont: Continuation, args: Arguments, s: Exec, d: Exec, stmts: seq<Stmt>)
    requires PrefixConsistent(cont) && Follows(b, cont) && Same(cont, s, d) && !c.stream
    requires RunAllowed(c, b, cont, args, s, stmts)
    ensures SameRan(cont, Run(c, b, args, s, stmts), Run(c, b, args, d, stmts))
    decreases stmts, 0
  {
    if stmts != [] {
      var (x, y) := (RunStmt(c, b, args, s, stmts[0]), RunStmt(c, b, args, d, stmts[0]));
      StmtKeepsSame(c, b, cont, args, s, d, stmts[0]);
      if !x.aborted {
        ProgramKeepsMeaning(c, b, cont, args, x.s, y.s, stmts[1..]);
      }
    }
  }
}
