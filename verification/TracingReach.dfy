/** How far tracing reaches: the extracted prefix is all of the text that a program is bound to write first. */
module TracingReach {
  import opened Options
  import opened Ir
  import opened Executor
  import opened Programs
  import opened Tracer
  import opened TracingSoundness
  import opened TracingLimits

  /** Texts and role changes. */
  predicate Fixed(e: Expr)
    decreases e, 1
  {
    match e
    case ConstantText(_) => true
    case RoleBegin(_) => true
    case RoleEnd(_) => true
    case ExprList(items) => AllFixed(items)
    case _ => false
  }

  predicate AllFixed(es: seq<Expr>)
    decreases es, 0
  {
    es == [] || (Fixed(es[0]) && AllFixed(es[1..]))
  }

  /** An expression whose text does not depend on the run. */
  predicate FixedPy(p: Signature, py: Py) {
    match py
    case Lit(_) => true
    case Arg(name) => name in p.bound
    case Derived(name, _, _) => name in p.bound
    case Read(_) => false
    case Node(e) => Fixed(e)
    case Plus(left, right) => FixedPy(p, left) && FixedPy(p, right)
    case InRole(_, body) => FixedPy(p, body)
  }

  predicate FixedBody(p: Signature, stmts: seq<Stmt>) {
    forall i :: 0 <= i < |stmts| ==> stmts[i].Append? && FixedPy(p, stmts[i].p)
  }

  /** A statement at which tracing cannot go on. */
  predicate Ends(p: Signature, stmt: Stmt) {
    match stmt
    case Append(Node(e)) => e.Gen? || e.Select? || e.Image? || e.VarScopeBegin? || e.CommitLazy? || e.ConcateAndAppend? || e.Variable?
    case Append(Arg(name)) => name !in p.bound
    case RoleCall(_, py) => FixedPy(p, py)
    case IfArg(name, _, _) => name !in p.bound
    case ForkJoin(kids, _) => kids != []
    case _ => false
  }

  /** Both interpreters go on in step, unless the run fails. */
  ghost predicate InStep(tr: Trace, s: Exec) { s.raised || Synced(tr, s) }

  lemma {:induction false} FixedKeepsStep(c: Config, b: Backend, tr: Trace, s: Exec, e: Expr)
    requires Fixed(e) && InStep(tr, s)
    ensures InStep(TraceExecute(c.template, tr, e), Execute(c, b, s, e))
    decreases e, 1
  {
    if !s.raised {
      match e
      case ConstantText(text) => SyncedFill(tr, s, text);
      case ExprList(items) => AllFixedKeepStep(c, b, tr, s, items);
      case RoleBegin(role) =>
        if s.curRole.None? {
          SyncedRoleBegin(c, tr, s, role);
        }
      case RoleEnd(role) => SyncedRoleEnd(c, tr, s, role);
    }
  }

  lemma {:induction false} AllFixedKeepStep(c: Config, b: Backend, tr: Trace, s: Exec, es: seq<Expr>)
    requires AllFixed(es) && InStep(tr, s)
    ensures InStep(TraceAll(c.template, tr, es), ExecuteAll(c, b, s, es))
    decreases es, 0
  {
    if es != [] {
      FixedKeepsStep(c, b, tr, s, es[0]);
      AllFixedKeepStep(c, b, TraceExecute(c.template, tr, es[0]), Execute(c, b, s, es[0]), es[1..]);
    }
  }

  lemma StepAlike(tr: Trace, tu: Trace, s: Exec)
    requires Alike(tr, tu) && InStep(tr, s)
    ensures InStep(tu, s)
  {}

  lemma {:induction false} FixedPyKeepsStep(c: Config, b: Backend, p: Signature, args: Arguments, vars: map<string, Value>, tr: Trace, s: Exec, py: Py)
    requires Agree(p, args) && FixedPy(p, py) && InStep(tr, s)
    ensures var (v, w) := (TraceEval(p, {}, py), Eval(args, vars, py));
            v.Some? && w.Some? && InStep(TraceExecute(c.template, tr, ToExpr(v.value)), Execute(c, b, s, ToExpr(w.value)))
    decreases py
  {
    match py
    case Plus(left, right) =>
      FixedPyKeepsStep(c, b, p, args, vars, tr, s, left);
      var (v1, w1) := (TraceEval(p, {}, left).value, Eval(args, vars, left).value);
      var (tu, u) := (TraceExecute(c.template, tr, ToExpr(v1)), Execute(c, b, s, ToExpr(w1)));
      FixedPyKeepsStep(c, b, p, args, vars, tu, u, right);
      var (v2, w2) := (TraceEval(p, {}, right).value, Eval(args, vars, right).value);
      TraceAdd(c.template, tr, v1, v2);
      ExecuteAdd(c, b, s, w1, w2);
      StepAlike(TraceExecute(c.template, tu, ToExpr(v2)), TraceExecute(c.template, tr, ToExpr(Add(v1, v2))),
                Execute(c, b, u, ToExpr(w2)));
    case InRole(role, body) =>
      var (begin, end) := (RoleBegin(role), RoleEnd(role));
      FixedKeepsStep(c, b, tr, s, begin);
      var (tu, u) := (TraceExecute(c.template, tr, begin), Execute(c, b, s, begin));
      FixedPyKeepsStep(c, b, p, args, vars, tu, u, body);
      var (v1, w1) := (TraceEval(p, {}, body).value, Eval(args, vars, body).value);
      FixedKeepsStep(c, b, TraceExecute(c.template, tu, ToExpr(v1)), Execute(c, b, u, ToExpr(w1)), end);
      TraceBlock(c.template, tr, role, v1);
      ExecuteBlock(c, b, s, role, w1);
    case Node(e) => FixedKeepsStep(c, b, tr, s, e);
    case Lit(text) => FixedKeepsStep(c, b, tr, s, ConstantText(text));
    case Arg(name) => FixedKeepsStep(c, b, tr, s, ConstantText(args(name)));
    case Derived(name, f, _) => FixedKeepsStep(c, b, tr, s, ConstantText(f(args(name))));
  }

  lemma FixedStmtKeepsStep(c: Config, b: Backend, p: Signature, args: Arguments, tr: Trace, s: Exec, py: Py)
    requires Agree(p, args) && FixedPy(p, py) && Synced(tr, s)
    ensures var ran := RunStmt(c, b, args, s, Append(py));
            !ran.aborted && InStep(TraceStmt(c.template, p, tr, Append(py)), ran.s)
  {
    FixedPyKeepsStep(c, b, p, args, s.variables, tr, s, py);
    var ready := InitEvents(s, Announced(ToExpr(Eval(args, s.variables, py).value)));
    assert Synced(tr, ready);
    FixedPyKeepsStep(c, b, p, args, s.variables, tr, ready, py);
  }

  lemma {:induction false} FixedBodyKeepsStep(c: Config, b: Backend, p: Signature, args: Arguments, tr: Trace, s: Exec, stmts: seq<Stmt>)
    requires Agree(p, args) && FixedBody(p, stmts) && Synced(tr, s)
    requires !Run(c, b, args, s, stmts).s.raised
    ensures !Run(c, b, args, s, stmts).aborted
    ensures Synced(TraceStmts(c.template, p, tr, stmts), Run(c, b, args, s, stmts).s)
    decreases |stmts|
  {
    if stmts != [] {
      var first := RunStmt(c, b, args, s, stmts[0]);
      FixedStmtKeepsStep(c, b, p, args, tr, s, stmts[0].p);
      if first.s.raised {
        RunAfterFailure(c, b, args, first.s, stmts[1..]);
      }
      assert FixedBody(p, stmts[1..]) by {
        assert forall i :: 0 <= i < |stmts| - 1 ==> stmts[1..][i] == stmts[i + 1];
      }
      FixedBodyKeepsStep(c, b, p, args, TraceStmt(c.template, p, tr, stmts[0]), first.s, stmts[1..]);
    }
  }

  /** A program of fixed texts and roles only: the extracted prefix is the whole text of its run. */
  lemma FixedProgramIsTracedWhole(g: Setting, stmts: seq<Stmt>)
    requires Agree(g.p, g.args) && FixedBody(g.p, stmts) && !g.RunOf(stmts).s.raised
    ensures ExtractedPrefix(g.c.template, Program(g.p, stmts)) == Some(g.RunOf(stmts).s.text)
    ensures g.RunOf(stmts).s.calls == [] && !g.RunOf(stmts).aborted
  {
    FixedBodyKeepsStep(g.c, g.b, g.p, g.args, Untraced(), g.Start(), stmts);
    ExtractedIsPrefix(g, stmts);
  }

  /** What ends the tracing adds nothing to the prefix. */
  lemma EndingTrace(g: Setting, tr: Trace, stmt: Stmt)
    requires Growing(tr) && Ends(g.p, stmt)
    ensures var tu := TraceStmt(g.c.template, g.p, tr, stmt);
            && Prefix(tu) == Prefix(tr) && !Growing(tu) && !tu.status.Failed?
            && (tu.status.Live? ==> stmt.Append? && stmt.p.Node? && (stmt.p.e.Gen? || stmt.p.e.Select?))
  {
    match stmt
    case Append(Node(e)) => ConstPrefixSnoc(tr.nodes, e);
    case RoleCall(_, py) => FixedPyHasValue(g.p, tr.vars, py);
    case _ =>
  }

  lemma {:induction false} FixedPyHasValue(p: Signature, vars: set<string>, py: Py)
    requires FixedPy(p, py)
    ensures TraceEval(p, vars, py).Some?
  {
    match py
    case Plus(left, right) =>
      FixedPyHasValue(p, vars, left);
      FixedPyHasValue(p, vars, right);
    case InRole(_, body) => FixedPyHasValue(p, vars, body);
    case _ =>
  }

  /**
  Fixed texts and roles, then a statement that ends the tracing, then anything: the prefix is exactly the text written up to that statement.
  Only after a generation or a select can an exception in what follows still leave the extraction without a result.
  */
  lemma PrefixEndsThere(g: Setting, stmts: seq<Stmt>, stmt: Stmt, post: seq<Stmt>)
    requires Agree(g.p, g.args) && FixedBody(g.p, stmts) && !g.RunOf(stmts).s.raised && Ends(g.p, stmt)
    ensures var prefix := ExtractedPrefix(g.c.template, Program(g.p, stmts + ([stmt] + post)));
            && (prefix.Some? ==> prefix.value == g.RunOf(stmts).s.text)
            && (post == [] || !(stmt.Append? && stmt.p.Node?) || !(stmt.p.e.Gen? || stmt.p.e.Select?) ==> prefix.Some?)
  {
    var rest := [stmt] + post;
    FixedBodyKeepsStep(g.c, g.b, g.p, g.args, Untraced(), g.Start(), stmts);
    TraceStmtsAppend(g.c.template, g.p, Untraced(), stmts, rest);
    var (tr, tu) := (g.TraceOf(stmts), TraceStmt(g.c.template, g.p, g.TraceOf(stmts), stmt));
    EndingTrace(g, tr, stmt);
    assert rest[1..] == post;
    assert g.TraceOf(stmts + rest) == TraceStmts(g.c.template, g.p, tu, post);
    TraceStmtsLater(g.c.template, g.p, tu, post);
    LaterPrefix(tu, g.TraceOf(stmts + rest));
    if !g.TraceOf(stmts + rest).status.Failed? {
      ExtractedIsPrefix(g, stmts + rest);
    }
  }

  /** So the first request of a program that writes fixed texts and then generates or selects is exactly the prefix. */
  lemma FirstRequestIsThePrefix(g: Setting, stmts: seq<Stmt>, e: Expr)
    requires Agree(g.p, g.args) && FixedBody(g.p, stmts) && !g.RunOf(stmts).s.raised && (e.Gen? || e.Select?)
    ensures var (body, calls) := (stmts + [Append(Node(e))], g.RunOf(stmts + [Append(Node(e))]).s.calls);
            && (calls != [] ==> ExtractedPrefix(g.c.template, Program(g.p, body)) == Some(calls[0].text))
            && (g.specTokens.None? || e.Select? ==> |calls| == 1)
  {
    var (stmt, s) := (Append(Node(e)), g.RunOf(stmts).s);
    FixedBodyKeepsStep(g.c, g.b, g.p, g.args, Untraced(), g.Start(), stmts);
    assert [stmt] + [] == [stmt];
    PrefixEndsThere(g, stmts, stmt, []);
    RunAppend(g.c, g.b, g.args, g.Start(), stmts, [stmt]);
    RunGrows(g.c, g.b, g.args, g.Start(), stmts);
    assert [stmt][1..] == [];
    OneRequest(g.c, g.b, InitEvents(s, Announced(e)), e);
  }

  lemma OneRequest(c: Config, b: Backend, s: Exec, e: Expr)
    requires !s.raised && s.calls == [] && (e.Gen? || e.Select?)
    ensures var t := Execute(c, b, s, e);
            (t.calls == [] || (|t.calls| == 1 && t.calls[0].text == s.text)) && (s.specTokens.None? || e.Select? ==> |t.calls| == 1)
  {
    if e.Gen? && !c.stream && s.specTokens.Some? {
      var (comp, after) := SpecGen(b, s, e.params);
      assert after.calls == [] || (|after.calls| == 1 && after.calls[0].text == s.text);
    }
  }
}
