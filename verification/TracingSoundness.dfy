/** The tracer and the executor run the same program: a simulation between the two. */
module TracingSoundness {
  import opened Options
  import opened Text
  import opened ChatTemplates
  import opened Ir
  import opened Executor
  import opened Programs
  import opened Tracer

  function Prefix(tr: Trace): string { ConstPrefix(tr.nodes) }

  predicate AllConst(nodes: seq<Expr>) {
    forall e :: e in nodes ==> e.ConstantText?
  }

  /** So far the tracer has seen only constants: both interpreters are at the same point. */
  ghost predicate Synced(tr: Trace, s: Exec) {
    && tr.status.Live? && AllConst(tr.nodes) && tr.vars == {}
    && !s.raised && s.text == Prefix(tr) && s.calls == [] && s.variables == map[]
    && s.curRole == tr.curRole && |s.messages| == |tr.messages|
    && forall m :: m in s.messages || m in tr.messages ==> m.content.Some?
  }

  /** The prefix no longer changes, and the executor's text and all it sent start with it. */
  ghost predicate Closed(tr: Trace, s: Exec) {
    && (!tr.status.Live? || !AllConst(tr.nodes))
    && Prefix(tr) <= s.text
    && forall call :: call in s.calls ==> Prefix(tr) <= call.text
  }

  /** The real run failed before it sent anything. */
  ghost predicate Dead(tr: Trace, s: Exec, aborted: bool) {
    (s.raised || aborted) && s.calls == [] && s.text <= Prefix(tr)
  }

  ghost predicate Sim(tr: Trace, s: Exec, aborted: bool) {
    (Synced(tr, s) && !aborted) || Closed(tr, s) || Dead(tr, s, aborted)
  }

  // ---------- The tracer alone ----------

  lemma {:induction false} ConstPrefixAppend(xs: seq<Expr>, ys: seq<Expr>)
    ensures AllConst(xs) ==> ConstPrefix(xs + ys) == ConstPrefix(xs) + ConstPrefix(ys)
    ensures !AllConst(xs) ==> ConstPrefix(xs + ys) == ConstPrefix(xs)
  {
    if xs == [] {
      assert xs + ys == ys;
    } else {
      assert (xs + ys)[1..] == xs[1..] + ys;
      AllConstHead(xs);
      ConstPrefixAppend(xs[1..], ys);
      if xs[0].ConstantText? {
        ConcatAssociative(xs[0].value, ConstPrefix(xs[1..]), ConstPrefix(ys));
      }
    }
  }

  lemma AllConstHead(xs: seq<Expr>)
    requires xs != []
    ensures AllConst(xs) <==> xs[0].ConstantText? && AllConst(xs[1..])
  {
    assert xs == [xs[0]] + xs[1..];
  }

  lemma ConstPrefixSnoc(xs: seq<Expr>, e: Expr)
    ensures AllConst(xs) && e.ConstantText? ==> ConstPrefix(xs + [e]) == ConstPrefix(xs) + e.value && AllConst(xs + [e])
    ensures !e.ConstantText? ==> ConstPrefix(xs + [e]) == ConstPrefix(xs) && !AllConst(xs + [e])
    ensures !AllConst(xs) ==> ConstPrefix(xs + [e]) == ConstPrefix(xs) && !AllConst(xs + [e])
  {
    ConstPrefixAppend(xs, [e]);
    ConcatAssociative(ConstPrefix(xs), "", "");
    if e.ConstantText? {
      assert [e][1..] == [];
      ConcatAssociative(e.value, "", "");
    } else {
      assert (xs + [e])[|xs|] == e;
    }
  }

  /** Later traces only add nodes, and none once tracing has ended. */
  ghost predicate Later(tr: Trace, tu: Trace) {
    && tr.nodes <= tu.nodes
    && (!tr.status.Live? ==> tu == tr)
  }

  lemma TraceRoleBeginLater(t: ChatTemplate, tr: Trace, role: string)
    requires tr.status.Live?
    ensures Later(tr, TraceRoleBegin(t, tr, role))
  {
    if tr.curRole.None? {
      assert tr.nodes <= TraceReady(t, tr, role).nodes;
    }
  }

  lemma {:induction false} TraceExecuteLater(t: ChatTemplate, tr: Trace, e: Expr)
    ensures Later(tr, TraceExecute(t, tr, e))
    decreases e, 1
  {
    if tr.status.Live? {
      match e
      case ExprList(items) => TraceAllLater(t, tr, items);
      case RoleBegin(role) => TraceRoleBeginLater(t, tr, role);
      case _ =>
    }
  }

  lemma {:induction false} TraceAllLater(t: ChatTemplate, tr: Trace, es: seq<Expr>)
    ensures Later(tr, TraceAll(t, tr, es))
    decreases es, 0
  {
    if es != [] {
      TraceExecuteLater(t, tr, es[0]);
      TraceAllLater(t, TraceExecute(t, tr, es[0]), es[1..]);
    }
  }

  lemma {:induction false} TraceStmtLater(t: ChatTemplate, p: Signature, tr: Trace, stmt: Stmt)
    ensures Later(tr, TraceStmt(t, p, tr, stmt))
    decreases stmt, 1
  {
    if tr.status.Live? {
      match stmt
      case Append(py) =>
        var v := TraceEval(p, tr.vars, py);
        if v.Some? {
          TraceExecuteLater(t, tr, ToExpr(v.value));
        }
      case RoleCall(_, _) =>
      case IfArg(_, thn, els) =>
        TraceStmtsLater(t, p, tr, thn.stmts);
        TraceStmtsLater(t, p, tr, els.stmts);
      case IfArgMeets(_, _, _, thn, els) =>
        TraceStmtsLater(t, p, tr, thn.stmts);
        TraceStmtsLater(t, p, tr, els.stmts);
      case IfVarIs(_, _, thn, els) =>
        TraceStmtsLater(t, p, tr, thn.stmts);
        TraceStmtsLater(t, p, tr, els.stmts);
      case ForkJoin(_, _) =>
    }
  }

  lemma {:induction false} TraceStmtsLater(t: ChatTemplate, p: Signature, tr: Trace, stmts: seq<Stmt>)
    ensures Later(tr, TraceStmts(t, p, tr, stmts))
    decreases stmts, 0
  {
    if stmts != [] {
      TraceStmtLater(t, p, tr, stmts[0]);
      TraceStmtsLater(t, p, TraceStmt(t, p, tr, stmts[0]), stmts[1..]);
    }
  }

  /** A later trace has a longer prefix, or the same one once it is fixed. */
  lemma LaterPrefix(tr: Trace, tu: Trace)
    requires Later(tr, tu)
    ensures Prefix(tr) <= Prefix(tu)
    ensures !tr.status.Live? || !AllConst(tr.nodes) ==> Prefix(tu) == Prefix(tr) && (!tu.status.Live? || !AllConst(tu.nodes))
  {
    var more := tu.nodes[|tr.nodes|..];
    assert tu.nodes == tr.nodes + more;
    ConstPrefixAppend(tr.nodes, more);
    if !AllConst(tr.nodes) {
      var e :| e in tr.nodes && !e.ConstantText?;
      assert e in tu.nodes;
    }
  }

  // ---------- The simulation ----------

  /** Once the prefix is fixed it stays right, whatever the two interpreters do next. */
  lemma ClosedStays(tr: Trace, tu: Trace, s: Exec, u: Exec)
    requires Closed(tr, s) && Later(tr, tu) && Grows(s, u)
    ensures Closed(tu, u)
  {
    LaterPrefix(tr, tu);
    forall call | call in u.calls
      ensures Prefix(tr) <= call.text
    {
      var k :| 0 <= k < |u.calls| && u.calls[k] == call;
      if k < |s.calls| {
        assert s.calls[k] == call;
        assert call in s.calls;
      }
    }
  }

  /** Tracing that ends here, or meets a non-constant node, fixes the prefix at the executor's text. */
  lemma ClosingNow(tr: Trace, tu: Trace, s: Exec, u: Exec)
    requires Synced(tr, s) && Prefix(tu) == Prefix(tr) && Grows(s, u)
    requires !tu.status.Live? || !AllConst(tu.nodes)
    ensures Closed(tu, u)
  {}

  lemma DeadStays(tr: Trace, tu: Trace, s: Exec, u: Exec, aborted: bool)
    requires Dead(tr, s, aborted) && Later(tr, tu) && u.text == s.text && u.calls == s.calls && (u.raised || aborted)
    ensures Dead(tu, u, aborted)
  {
    LaterPrefix(tr, tu);
  }

  lemma SyncedFill(tr: Trace, s: Exec, text: string)
    requires Synced(tr, s)
    ensures Synced(TraceFill(tr, text), Fill(s, text))
  {
    ConstPrefixSnoc(tr.nodes, ConstantText(text));
  }

  lemma SyncedEnterRole(c: Config, tr: Trace, s: Exec, role: string)
    requires Synced(tr, s)
    ensures Synced(TraceEnterRole(c.template, tr, role), EnterRole(c, s, role))
  {
    DelimitersNeedOnlyLength(c.template, role, s.messages, tr.messages);
    SyncedFill(tr.(curRole := Some(role)), s.(curRole := Some(role)), c.template.PrefixAndSuffix(role, s.messages).0);
  }

  lemma SyncedRoleEnd(c: Config, tr: Trace, s: Exec, role: string)
    requires Synced(tr, s)
    ensures Synced(TraceRoleEnd(c.template, tr, role), ExecuteRoleEnd(c, s, role))
  {
    DelimitersNeedOnlyLength(c.template, role, s.messages, tr.messages);
    SyncedFill(tr.(curRole := None), s.(curRole := None), c.template.PrefixAndSuffix(role, s.messages).1);
  }

  lemma SyncedRoleBegin(c: Config, tr: Trace, s: Exec, role: string)
    requires Synced(tr, s) && s.curRole.None?
    ensures Synced(TraceRoleBegin(c.template, tr, role), ExecuteRoleBegin(c, s, role))
  {
    if NeedsDefaultSystem(c, s, role) {
      var prompt := c.template.defaultSystem.value;
      SyncedEnterRole(c, tr, s, "system");
      SyncedFill(TraceEnterRole(c.template, tr, "system"), EnterRole(c, s, "system"), prompt);
      SyncedRoleEnd(c, TraceFill(TraceEnterRole(c.template, tr, "system"), prompt), Fill(EnterRole(c, s, "system"), prompt), "system");
      SyncedEnterRole(c, TraceReady(c.template, tr, role), Ready(c, s, role), role);
    } else {
      SyncedEnterRole(c, tr, s, role);
    }
  }

  /** Both interpreters execute the same expression. */
  lemma {:induction false} SimExecute(c: Config, b: Backend, tr: Trace, s: Exec, e: Expr)
    requires Sim(tr, s, false)
    ensures Sim(TraceExecute(c.template, tr, e), Execute(c, b, s, e), false)
    decreases e, 1
  {
    var (tu, u) := (TraceExecute(c.template, tr, e), Execute(c, b, s, e));
    TraceExecuteLater(c.template, tr, e);
    ExecuteExtends(c, b, s, e);
    if Closed(tr, s) {
      ClosedStays(tr, tu, s, u);
    } else if Dead(tr, s, false) {
      DeadStays(tr, tu, s, u, false);
    } else {
      match e
      case ConstantText(text) => SyncedFill(tr, s, text);
      case ExprList(items) => SimExecuteAll(c, b, tr, s, items);
      case RoleBegin(role) =>
        if s.curRole.None? {
          SyncedRoleBegin(c, tr, s, role);
        }
      case RoleEnd(role) => SyncedRoleEnd(c, tr, s, role);
      case VarScopeEnd(_) =>
      case Gen(_, _) =>
        ConstPrefixSnoc(tr.nodes, e);
        ClosingNow(tr, tu, s, u);
      case Select(_, _) =>
        ConstPrefixSnoc(tr.nodes, e);
        ClosingNow(tr, tu, s, u);
      case _ => ClosingNow(tr, tu, s, u);
    }
  }

  lemma {:induction false} SimExecuteAll(c: Config, b: Backend, tr: Trace, s: Exec, es: seq<Expr>)
    requires Sim(tr, s, false)
    ensures Sim(TraceAll(c.template, tr, es), ExecuteAll(c, b, s, es), false)
    decreases es, 0
  {
    if es != [] {
      SimExecute(c, b, tr, s, es[0]);
      SimExecuteAll(c, b, TraceExecute(c.template, tr, es[0]), Execute(c, b, s, es[0]), es[1..]);
    }
  }

  // ---------- Values: what is a text in the run may be an unknown argument in the trace ----------

  /** Traces that differ only in how constants are split into nodes. */
  ghost predicate Alike(tr: Trace, tu: Trace) {
    && Prefix(tr) == Prefix(tu) && AllConst(tr.nodes) == AllConst(tu.nodes)
    && tr.messages == tu.messages && tr.curRole == tu.curRole && tr.vars == tu.vars && tr.status == tu.status
  }

  lemma SimAlike(tr: Trace, tu: Trace, s: Exec, aborted: bool)
    requires Alike(tr, tu) && Sim(tr, s, aborted)
    ensures Sim(tu, s, aborted)
  {}

  lemma {:induction false} TraceAllAppend(t: ChatTemplate, tr: Trace, xs: seq<Expr>, ys: seq<Expr>)
    ensures TraceAll(t, tr, xs + ys) == TraceAll(t, TraceAll(t, tr, xs), ys)
    decreases |xs|
  {
    if xs == [] {
      assert xs + ys == ys;
    } else {
      assert (xs + ys)[1..] == xs[1..] + ys;
      TraceAllAppend(t, TraceExecute(t, tr, xs[0]), xs[1..], ys);
    }
  }

  lemma TraceItems(t: ChatTemplate, tr: Trace, e: Expr)
    ensures TraceAll(t, tr, Items(e)) == TraceExecute(t, tr, e)
  {
    if e.ExprList? {
      TraceAllLater(t, tr, e.items);
    } else {
      assert [e][1..] == [];
    }
  }

  lemma FillTwiceAlike(tr: Trace, x: string, y: string)
    ensures Alike(TraceFill(tr, x + y), TraceFill(TraceFill(tr, x), y))
  {
    ConstPrefixSnoc(tr.nodes, ConstantText(x + y));
    ConstPrefixSnoc(tr.nodes, ConstantText(x));
    ConstPrefixSnoc(tr.nodes + [ConstantText(x)], ConstantText(y));
    ConcatAssociative(Prefix(tr), x, y);
  }

  lemma TraceAdd(t: ChatTemplate, tr: Trace, v: PyVal, w: PyVal)
    ensures Alike(TraceExecute(t, tr, ToExpr(Add(v, w))), TraceExecute(t, TraceExecute(t, tr, ToExpr(v)), ToExpr(w)))
  {
    TraceExecuteLater(t, tr, ToExpr(v));
    if v.PStr? && w.PStr? {
      FillTwiceAlike(tr, v.text, w.text);
    } else if tr.status.Live? {
      var (x, y) := (ToExpr(v), ToExpr(w));
      ConcatenateIrItems(x, y);
      TraceAllAppend(t, tr, Items(x), Items(y));
      TraceItems(t, tr, x);
      TraceItems(t, TraceExecute(t, tr, x), y);
    }
  }

  lemma ExecuteAdd(c: Config, b: Backend, s: Exec, v: PyVal, w: PyVal)
    ensures Execute(c, b, s, ToExpr(Add(v, w))) == Execute(c, b, Execute(c, b, s, ToExpr(v)), ToExpr(w))
  {
    ExecuteExtends(c, b, s, ToExpr(v));
    if v.PStr? && w.PStr? {
      FillTwice(s, v.text, w.text);
    } else if !s.raised {
      ConcatenateIrExecutes(c, b, s, ToExpr(v), ToExpr(w));
    }
  }

  lemma TraceBlock(t: ChatTemplate, tr: Trace, role: string, v: PyVal)
    ensures TraceExecute(t, tr, RoleBlock(role, v).e) ==
            TraceExecute(t, TraceExecute(t, TraceExecute(t, tr, RoleBegin(role)), ToExpr(v)), RoleEnd(role))
  {
    var (x, y, z) := (RoleBegin(role), ToExpr(v), RoleEnd(role));
    TraceExecuteLater(t, tr, x);
    TraceExecuteLater(t, TraceExecute(t, tr, x), y);
    if tr.status.Live? {
      TraceThree(t, tr, x, y, z);
    }
  }

  lemma TraceThree(t: ChatTemplate, tr: Trace, x: Expr, y: Expr, z: Expr)
    ensures TraceAll(t, tr, [x, y, z]) == TraceExecute(t, TraceExecute(t, TraceExecute(t, tr, x), y), z)
  {
    var tx := TraceExecute(t, tr, x);
    var ty := TraceExecute(t, tx, y);
    TraceAllCons(t, tr, x, [y, z]);
    TraceAllCons(t, tx, y, [z]);
    TraceAllCons(t, ty, z, []);
    assert [x] + [y, z] == [x, y, z] && [y] + [z] == [y, z] && [z] + [] == [z];
  }

  lemma TraceAllCons(t: ChatTemplate, tr: Trace, e: Expr, es: seq<Expr>)
    ensures TraceAll(t, tr, [e] + es) == TraceAll(t, TraceExecute(t, tr, e), es)
  {
    assert ([e] + es)[1..] == es;
  }

  lemma ExecuteBlock(c: Config, b: Backend, s: Exec, role: string, v: PyVal)
    ensures Execute(c, b, s, RoleBlock(role, v).e) ==
            Execute(c, b, Execute(c, b, Execute(c, b, s, RoleBegin(role)), ToExpr(v)), RoleEnd(role))
  {
    var (x, y, z) := (RoleBegin(role), ToExpr(v), RoleEnd(role));
    ExecuteAllAround(c, b, s, x, [y], z);
    assert [x] + [y] + [z] == [x, y, z] && [y][1..] == [];
    ExecuteItems(c, b, s, ExprList([x, y, z]));
    ExecuteAllCons(c, b, Execute(c, b, s, x), y, []);
  }

  /** The arguments of a run agree with those the program was bound to. */
  ghost predicate Agree(p: Signature, args: Arguments) {
    forall name :: name in p.bound ==> args(name) == p.bound[name]
  }

  /** The prefix can still grow. */
  predicate Growing(tr: Trace) { tr.status.Live? && AllConst(tr.nodes) }

  /** No text made of an unbound argument differs from that of its placeholder, where it would go into the prefix. */
  predicate PyAvoids(t: ChatTemplate, p: Signature, args: Arguments, tr: Trace, py: Py)
    decreases py
  {
    match py
    case Derived(name, f, placeholder) => Growing(tr) && name !in p.bound ==> f(args(name)) == placeholder
    case Plus(left, right) =>
      var v := TraceEval(p, {}, left);
      PyAvoids(t, p, args, tr, left) && (v.Some? ==> PyAvoids(t, p, args, TraceExecute(t, tr, ToExpr(v.value)), right))
    case InRole(role, body) => PyAvoids(t, p, args, TraceExecute(t, tr, RoleBegin(role)), body)
    case _ => true
  }

  /** Both interpreters evaluate and execute the same Python expression, no variable being readable yet. */
  lemma {:induction false} SimValue(c: Config, b: Backend, p: Signature, args: Arguments, tr: Trace, s: Exec, py: Py)
    requires Agree(p, args) && Sim(tr, s, false) && PyAvoids(c.template, p, args, tr, py)
    requires Eval(args, map[], py).Some?
    ensures var v := TraceEval(p, {}, py);
            v.Some? && Sim(TraceExecute(c.template, tr, ToExpr(v.value)),
                           Execute(c, b, s, ToExpr(Eval(args, map[], py).value)), false)
    decreases py
  {
    var w := Eval(args, map[], py);
    match py
    case Lit(_) => SimExecute(c, b, tr, s, ToExpr(w.value));
    case Node(_) => SimExecute(c, b, tr, s, ToExpr(w.value));
    case Arg(name) => SimArgument(c, b, p, args, tr, s, name);
    case Derived(_, _, _) => SimText(c, b, tr, s, ToExpr(TraceEval(p, {}, py).value), ToExpr(w.value));
    case Plus(left, right) =>
      SimValue(c, b, p, args, tr, s, left);
      var (v1, w1) := (TraceEval(p, {}, left).value, Eval(args, map[], left).value);
      var (tu, u) := (TraceExecute(c.template, tr, ToExpr(v1)), Execute(c, b, s, ToExpr(w1)));
      SimValue(c, b, p, args, tu, u, right);
      var (v2, w2) := (TraceEval(p, {}, right).value, Eval(args, map[], right).value);
      TraceAdd(c.template, tr, v1, v2);
      ExecuteAdd(c, b, s, w1, w2);
      SimAlike(TraceExecute(c.template, tu, ToExpr(v2)), TraceExecute(c.template, tr, ToExpr(Add(v1, v2))),
               Execute(c, b, u, ToExpr(w2)), false);
    case InRole(role, body) =>
      var (begin, end) := (RoleBegin(role), RoleEnd(role));
      SimExecute(c, b, tr, s, begin);
      var (tu, u) := (TraceExecute(c.template, tr, begin), Execute(c, b, s, begin));
      SimValue(c, b, p, args, tu, u, body);
      var (v1, w1) := (TraceEval(p, {}, body).value, Eval(args, map[], body).value);
      SimExecute(c, b, TraceExecute(c.template, tu, ToExpr(v1)), Execute(c, b, u, ToExpr(w1)), end);
      TraceBlock(c.template, tr, role, v1);
      ExecuteBlock(c, b, s, role, w1);
  }

  lemma SimArgument(c: Config, b: Backend, p: Signature, args: Arguments, tr: Trace, s: Exec, name: string)
    requires Agree(p, args) && Sim(tr, s, false)
    ensures Sim(TraceExecute(c.template, tr, ToExpr(TraceEval(p, {}, Arg(name)).value)),
                Execute(c, b, s, ConstantText(args(name))), false)
  {
    var e := ConstantText(args(name));
    if name in p.bound {
      SimExecute(c, b, tr, s, e);
    } else {
      var (tu, u) := (TraceExecute(c.template, tr, Argument(name)), Execute(c, b, s, e));
      ExecuteExtends(c, b, s, e);
      TraceExecuteLater(c.template, tr, Argument(name));
      if Synced(tr, s) {
        ClosingNow(tr, tu, s, u);
      } else {
        SimKept(tr, tu, s, u);
      }
    }
  }

  /** Texts that are executed in step, or differ where the prefix is already fixed. */
  lemma SimText(c: Config, b: Backend, tr: Trace, s: Exec, traced: Expr, run: Expr)
    requires Sim(tr, s, false) && traced.ConstantText? && run.ConstantText?
    requires Growing(tr) ==> traced == run
    ensures Sim(TraceExecute(c.template, tr, traced), Execute(c, b, s, run), false)
  {
    if traced == run {
      SimExecute(c, b, tr, s, run);
    } else {
      ExecuteExtends(c, b, s, run);
      TraceExecuteLater(c.template, tr, traced);
      SimKept(tr, TraceExecute(c.template, tr, traced), s, Execute(c, b, s, run));
    }
  }

  /** A fixed prefix, or a failed run, stays so. */
  lemma SimKept(tr: Trace, tu: Trace, s: Exec, u: Exec)
    requires Sim(tr, s, false) && !Synced(tr, s) && Later(tr, tu) && Extends(s, u)
    ensures Sim(tu, u, false)
  {
    if Closed(tr, s) {
      ClosedStays(tr, tu, s, u);
    } else {
      DeadStays(tr, tu, s, u, false);
    }
  }

  // ---------- Statements ----------

  /** The branch the tracer takes: for an unbound argument, the test of the placeholder decides. */
  function TracedBranch(p: Signature, name: string, test: string -> bool, placeholder: bool, thn: Body, els: Body): seq<Stmt> {
    if (if name in p.bound then test(p.bound[name]) else placeholder) then thn.stmts else els.stmts
  }

  /** While the prefix can grow, the tracer meets no text and no test that an unbound argument answers unlike its placeholder. */
  predicate AvoidsTests(t: ChatTemplate, p: Signature, args: Arguments, tr: Trace, stmts: seq<Stmt>)
    decreases stmts, 0
  {
    stmts == [] || !Growing(tr) ||
    (StmtAvoidsTests(t, p, args, tr, stmts[0]) && AvoidsTests(t, p, args, TraceStmt(t, p, tr, stmts[0]), stmts[1..]))
  }

  predicate StmtAvoidsTests(t: ChatTemplate, p: Signature, args: Arguments, tr: Trace, stmt: Stmt)
    decreases stmt, 1
  {
    match stmt
    case Append(py) => PyAvoids(t, p, args, tr, py)
    case IfArg(name, thn, els) =>
      name in p.bound ==> AvoidsTests(t, p, args, tr, if p.bound[name] != "" then thn.stmts else els.stmts)
    case IfArgMeets(name, test, placeholder, thn, els) =>
      && (name in p.bound || test(args(name)) == placeholder)
      && AvoidsTests(t, p, args, tr, TracedBranch(p, name, test, placeholder, thn, els))
    case _ => true
  }

  lemma SimAppend(c: Config, b: Backend, p: Signature, args: Arguments, tr: Trace, s: Exec, py: Py)
    requires Agree(p, args) && Synced(tr, s) && PyAvoids(c.template, p, args, tr, py)
    ensures var ran := SubmitValue(c, b, s, Eval(args, s.variables, py));
            Sim(TraceStmt(c.template, p, tr, Append(py)), ran.s, ran.aborted)
  {
    var w := Eval(args, s.variables, py);
    TraceStmtLater(c.template, p, tr, Append(py));
    if w.None? {
      LaterPrefix(tr, TraceStmt(c.template, p, tr, Append(py)));
    } else {
      var ready := InitEvents(s, Announced(ToExpr(w.value)));
      assert Synced(tr, ready);
      SimValue(c, b, p, args, tr, ready, py);
    }
  }

  /** A failed executor neither writes nor asks any more. */
  lemma {:induction false} RunAfterFailure(c: Config, b: Backend, args: Arguments, s: Exec, stmts: seq<Stmt>)
    requires s.raised
    ensures var u := Run(c, b, args, s, stmts).s;
            u.raised && u.text == s.text && u.calls == s.calls
    decreases stmts, 0
  {
    if stmts != [] {
      StmtAfterFailure(c, b, args, s, stmts[0]);
      RunAfterFailure(c, b, args, RunStmt(c, b, args, s, stmts[0]).s, stmts[1..]);
    }
  }

  lemma {:induction false} StmtAfterFailure(c: Config, b: Backend, args: Arguments, s: Exec, stmt: Stmt)
    requires s.raised
    ensures var u := RunStmt(c, b, args, s, stmt).s;
            u.raised && u.text == s.text && u.calls == s.calls
    decreases stmt, 1
  {
    match stmt
    case IfArg(_, thn, els) =>
      RunAfterFailure(c, b, args, s, thn.stmts);
      RunAfterFailure(c, b, args, s, els.stmts);
    case IfArgMeets(_, _, _, thn, els) =>
      RunAfterFailure(c, b, args, s, thn.stmts);
      RunAfterFailure(c, b, args, s, els.stmts);
    case IfVarIs(_, _, thn, els) =>
      RunAfterFailure(c, b, args, s, thn.stmts);
      RunAfterFailure(c, b, args, s, els.stmts);
    case _ =>
  }

  lemma {:induction false} SimStmt(c: Config, b: Backend, p: Signature, args: Arguments, tr: Trace, s: Exec, stmt: Stmt)
    requires Agree(p, args) && Sim(tr, s, false) && (Growing(tr) ==> StmtAvoidsTests(c.template, p, args, tr, stmt))
    ensures var ran := RunStmt(c, b, args, s, stmt);
            Sim(TraceStmt(c.template, p, tr, stmt), ran.s, ran.aborted)
    decreases stmt, 1
  {
    var (tu, ran) := (TraceStmt(c.template, p, tr, stmt), RunStmt(c, b, args, s, stmt));
    TraceStmtLater(c.template, p, tr, stmt);
    RunStmtGrows(c, b, args, s, stmt);
    if Closed(tr, s) {
      ClosedStays(tr, tu, s, ran.s);
    } else if Dead(tr, s, false) {
      StmtAfterFailure(c, b, args, s, stmt);
      DeadStays(tr, tu, s, ran.s, ran.aborted);
    } else {
      match stmt
      case Append(py) => SimAppend(c, b, p, args, tr, s, py);
      case RoleCall(_, _) => ClosingNow(tr, tu, s, ran.s);
      case IfArg(name, thn, els) =>
        if name in p.bound {
          SimStmts(c, b, p, args, tr, s, if p.bound[name] != "" then thn.stmts else els.stmts);
        } else {
          ClosingNow(tr, tu, s, ran.s);
        }
      case IfArgMeets(name, test, placeholder, thn, els) =>
        SimStmts(c, b, p, args, tr, s, TracedBranch(p, name, test, placeholder, thn, els));
      case IfVarIs(_, _, _, _) => LaterPrefix(tr, tu);
      case ForkJoin(_, _) => ClosingNow(tr, tu, s, ran.s);
    }
  }

  lemma {:induction false} SimStmts(c: Config, b: Backend, p: Signature, args: Arguments, tr: Trace, s: Exec, stmts: seq<Stmt>)
    requires Agree(p, args) && Sim(tr, s, false) && AvoidsTests(c.template, p, args, tr, stmts)
    ensures var ran := Run(c, b, args, s, stmts);
            Sim(TraceStmts(c.template, p, tr, stmts), ran.s, ran.aborted)
    decreases stmts, 0
  {
    if stmts != [] {
      var (tu, first) := (TraceStmt(c.template, p, tr, stmts[0]), RunStmt(c, b, args, s, stmts[0]));
      SimStmt(c, b, p, args, tr, s, stmts[0]);
      TraceStmtLater(c.template, p, tr, stmts[0]);
      LaterPrefix(tr, tu);
      if first.aborted {
        var tv := TraceStmts(c.template, p, tu, stmts[1..]);
        TraceStmtsLater(c.template, p, tu, stmts[1..]);
        if Closed(tu, first.s) {
          ClosedStays(tu, tv, first.s, first.s);
        } else {
          DeadStays(tu, tv, first.s, first.s, true);
        }
      } else {
        SimStmts(c, b, p, args, tu, first.s, stmts[1..]);
      }
    }
  }

  lemma {:induction false} FlattenConstPrefix(nodes: seq<Expr>)
    requires forall e :: e in nodes ==> !e.ExprList?
    ensures FlattenAll(nodes) == nodes
  {
    if nodes != [] {
      assert nodes == [nodes[0]] + nodes[1..];
      FlattenConstPrefix(nodes[1..]);
    }
  }

  predicate FlatNodes(tr: Trace) {
    forall e :: e in tr.nodes ==> !e.ExprList?
  }

  lemma {:induction false} TraceExecuteFlat(t: ChatTemplate, tr: Trace, e: Expr)
    requires FlatNodes(tr)
    ensures FlatNodes(TraceExecute(t, tr, e))
    decreases e, 1
  {
    match e
    case ExprList(items) => TraceAllFlat(t, tr, items);
    case RoleBegin(role) => assert FlatNodes(TraceReady(t, tr, role));
    case _ =>
  }

  lemma {:induction false} TraceAllFlat(t: ChatTemplate, tr: Trace, es: seq<Expr>)
    requires FlatNodes(tr)
    ensures FlatNodes(TraceAll(t, tr, es))
    decreases es, 0
  {
    if es != [] {
      TraceExecuteFlat(t, tr, es[0]);
      TraceAllFlat(t, TraceExecute(t, tr, es[0]), es[1..]);
    }
  }

  lemma {:induction false} TraceStmtsFlat(t: ChatTemplate, p: Signature, tr: Trace, stmts: seq<Stmt>)
    requires FlatNodes(tr)
    ensures FlatNodes(TraceStmts(t, p, tr, stmts))
    decreases stmts, 0
  {
    if stmts != [] {
      TraceStmtFlat(t, p, tr, stmts[0]);
      TraceStmtsFlat(t, p, TraceStmt(t, p, tr, stmts[0]), stmts[1..]);
    }
  }

  lemma {:induction false} TraceStmtFlat(t: ChatTemplate, p: Signature, tr: Trace, stmt: Stmt)
    requires FlatNodes(tr)
    ensures FlatNodes(TraceStmt(t, p, tr, stmt))
    decreases stmt, 1
  {
    match stmt
    case Append(py) =>
      var v := TraceEval(p, tr.vars, py);
      if v.Some? {
        TraceExecuteFlat(t, tr, ToExpr(v.value));
      }
    case IfArg(_, thn, els) =>
      TraceStmtsFlat(t, p, tr, thn.stmts);
      TraceStmtsFlat(t, p, tr, els.stmts);
    case IfArgMeets(_, _, _, thn, els) =>
      TraceStmtsFlat(t, p, tr, thn.stmts);
      TraceStmtsFlat(t, p, tr, els.stmts);
    case IfVarIs(_, _, thn, els) =>
      TraceStmtsFlat(t, p, tr, thn.stmts);
      TraceStmtsFlat(t, p, tr, els.stmts);
    case _ =>
  }

  /** What a prefix of a run promises: all that was sent starts with it, and so does the final text unless the run failed before writing it. */
  ghost predicate Leads(prefix: string, ran: Ran) {
    && (forall call :: call in ran.s.calls ==> prefix <= call.text)
    && (!ran.s.raised && !ran.aborted ==> prefix <= ran.s.text)
    && (prefix <= ran.s.text || (ran.s.text <= prefix && ran.s.calls == []))
  }

  /** The prefix extracted from a program, if any, leads its run. */
  ghost predicate WellTraced(c: Config, b: Backend, p: Program, args: Arguments, sid: seq<nat>, specTokens: Option<nat>) {
    var prefix := ExtractedPrefix(c.template, p);
    prefix.Some? ==> Leads(prefix.value, Run(c, b, args, Fresh(sid, specTokens), p.body))
  }

  lemma SimIsWellTraced(c: Config, b: Backend, p: Program, args: Arguments, sid: seq<nat>, specTokens: Option<nat>)
    requires var ran := Run(c, b, args, Fresh(sid, specTokens), p.body);
             Sim(TraceStmts(c.template, p.sig, Untraced(), p.body), ran.s, ran.aborted)
    ensures WellTraced(c, b, p, args, sid, specTokens)
  {
    TraceStmtsFlat(c.template, p.sig, Untraced(), p.body);
    FlattenConstPrefix(TraceStmts(c.template, p.sig, Untraced(), p.body).nodes);
  }

  /**
  The extracted prefix is right. For every program, template, backend and argument values that avoid the comparisons the tracer reaches,
  every text sent to the backend starts with the prefix, from children of forks too; so does the final text of a run that does not fail.
  A run that fails before the prefix is written has sent nothing.
  */
  lemma TracedPrefixIsAlwaysSent(c: Config, b: Backend, p: Program, args: Arguments, sid: seq<nat>, specTokens: Option<nat>)
    requires Agree(p.sig, args) && AvoidsTests(c.template, p.sig, args, Untraced(), p.body)
    ensures WellTraced(c, b, p, args, sid, specTokens)
  {
    SimStmts(c, b, p.sig, args, Untraced(), Fresh(sid, specTokens), p.body);
    SimIsWellTraced(c, b, p, args, sid, specTokens);
  }
}
