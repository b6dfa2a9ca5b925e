/** Programs that drive an executor: appended values, branches, and nested fork and join. */
module Programs {
  import opened Options
  import opened Ir
  import opened Executor

  /** A Python expression a program appends to its state. */
  datatype Py =
    | Lit(text: string)
    | Arg(name: string)              // an argument of the program
    | Derived(name: string, f: string -> string, placeholder: string) // str(name), or another text computed from an argument
    | Read(name: string)             // s["name"]
    | Node(e: Expr)
    | Plus(left: Py, right: Py)
    | InRole(role: string, body: Py) // sgl.user(body) and its kin

  /** What such an expression evaluates to. */
  datatype PyVal = PStr(text: string) | PNode(e: Expr)

  function ToExpr(v: PyVal): Expr {
    match v
    case PStr(text) => ConstantText(text)
    case PNode(e) => e
  }

  /** Python's `+`: on two strings it concatenates, otherwise it builds an expression list. */
  function Add(v: PyVal, w: PyVal): PyVal {
    if v.PStr? && w.PStr? then PStr(v.text + w.text)
    else PNode(ConcatenateIr(ToExpr(v), ToExpr(w)))
  }

  function RoleBlock(role: string, v: PyVal): PyVal {
    PNode(ExprList([RoleBegin(role), ToExpr(v), RoleEnd(role)]))
  }

  /**
  A placeholder stands for an unbound argument while a program is traced. A text or a test computed from it
  without an exception is the same for every value the argument may have in a run.
  */
  datatype Stmt =
    | Append(p: Py)                                                       // s += p
    | RoleCall(role: string, p: Py)                                       // s.user(p)
    | IfArg(name: string, thn: Body, els: Body)                           // if name:
    | IfArgMeets(name: string, test: string -> bool, placeholder: bool, thn: Body, els: Body) // if name == "a": or another test
    | IfVarIs(name: string, lit: string, thn: Body, els: Body)            // if s["name"] == "lit":
    | ForkJoin(kids: seq<Body>, gather: bool)

  datatype Body = Body(stmts: seq<Stmt>)

  type Arguments = string -> string

  /** The value of an expression in a real run, or None when evaluating it fails or never ends. */
  function Eval(args: Arguments, variables: map<string, Value>, p: Py): Option<PyVal> {
    match p
    case Lit(text) => Some(PStr(text))
    case Arg(name) => Some(PStr(args(name)))
    case Derived(name, f, _) => Some(PStr(f(args(name))))
    case Read(name) =>
      if name in variables && variables[name].Str? then Some(PStr(variables[name].text)) else None
    case Node(e) => Some(PNode(e))
    case Plus(left, right) =>
      var v := Eval(args, variables, left);
      var w := Eval(args, variables, right);
      if v.Some? && w.Some? then Some(Add(v.value, w.value)) else None
    case InRole(role, body) =>
      var v := Eval(args, variables, body);
      if v.Some? then Some(RoleBlock(role, v.value)) else None
  }

  /** Whether a variable equals a text; a list never does. None when reading it fails or never ends. */
  function VarIs(s: Exec, name: string, lit: string): Option<bool> {
    if name !in s.variables then None
    else
      match s.variables[name]
      case Str(text) => Some(text == lit)
      case Many(_) => Some(false)
      case Pos(_) => if name in s.events then None else Some(false)
  }

  /** A run: the executor, and whether the program itself failed. */
  datatype Ran = Ran(s: Exec, aborted: bool)

  // ---------- Joining ----------

  function ListOf(vars: map<string, Value>, name: string): seq<Value> {
    if name in vars && vars[name].Many? then vars[name].items else []
  }

  function WithValue(vars: map<string, Value>, name: string, value: Value): map<string, Value> {
    vars[name := Many(ListOf(vars, name) + [value])]
  }

  /** One child's turn: the variables `names` of the child go to the end of their lists. */
  function WithChild(vars: map<string, Value>, child: map<string, Value>, names: set<string>): map<string, Value>
    requires names <= child.Keys
  {
    vars + map name | name in names :: Many(ListOf(vars, name) + [child[name]])
  }

  function Gathered(src: map<string, Value>, kids: seq<map<string, Value>>): map<string, Value> {
    if kids == [] then src
    else WithChild(Gathered(src, kids[..|kids| - 1]), kids[|kids| - 1], kids[|kids| - 1].Keys - src.Keys)
  }

  method GatherChild(vars: map<string, Value>, child: map<string, Value>, newVars: set<string>)
    returns (r: map<string, Value>)
    requires newVars <= child.Keys
    ensures r == WithChild(vars, child, newVars)
  {
    r := vars;
    var done := {};
    while done != newVars
      invariant done <= newVars && r == WithChild(vars, child, done)
      decreases newVars - done
    {
      var k :| k in newVars && k !in done;
      WithOneMore(vars, child, done, k);
      r, done := WithValue(r, k, child[k]), done + {k};
    }
  }

  lemma WithOneMore(vars: map<string, Value>, child: map<string, Value>, names: set<string>, k: string)
    requires names <= child.Keys && k in child && k !in names
    ensures WithChild(vars, child, names + {k}) == WithValue(WithChild(vars, child, names), k, child[k])
  {
    var r := WithChild(vars, child, names);
    assert k in r <==> k in vars;
    assert ListOf(r, k) == ListOf(vars, k);
  }

  method GatherVariables(src: map<string, Value>, kids: seq<map<string, Value>>) returns (vars: map<string, Value>)
    ensures vars == Gathered(src, kids)
  {
    vars := src;
    for i := 0 to |kids|
      invariant vars == Gathered(src, kids[..i])
    {
      assert kids[..i + 1][..i] == kids[..i];
      vars := GatherChild(vars, kids[i], kids[i].Keys - src.Keys);
    }
    assert kids[..|kids|] == kids;
  }

  /** The values the children have for a name, in child order. */
  function ValuesOf(kids: seq<map<string, Value>>, name: string): seq<Value> {
    if kids == [] then []
    else
      var last := |kids| - 1;
      ValuesOf(kids[..last], name) + (if name in kids[last] then [kids[last][name]] else [])
  }

  /** Old names are left alone; a name is new exactly when some child has it, and then lists the children's values in child order. */
  lemma {:induction false} GatherCollectsNewNames(src: map<string, Value>, kids: seq<map<string, Value>>, name: string)
    ensures name in src ==> name in Gathered(src, kids) && Gathered(src, kids)[name] == src[name]
    ensures name !in src ==> (name in Gathered(src, kids) <==> ValuesOf(kids, name) != [])
    ensures name !in src && name in Gathered(src, kids) ==> Gathered(src, kids)[name] == Many(ValuesOf(kids, name))
    decreases |kids|
  {
    if kids != [] {
      GatherCollectsNewNames(src, kids[..|kids| - 1], name);
    }
  }

  /** When every child has the name, its list has the value of child `i` at position `i`. */
  lemma {:induction false} ValuesInChildOrder(kids: seq<map<string, Value>>, name: string)
    requires forall i :: 0 <= i < |kids| ==> name in kids[i]
    ensures |ValuesOf(kids, name)| == |kids|
    ensures forall i :: 0 <= i < |kids| ==> ValuesOf(kids, name)[i] == kids[i][name]
    decreases |kids|
  {
    if kids != [] {
      ValuesInChildOrder(kids[..|kids| - 1], name);
    }
  }

  // ---------- Running ----------

  /** The children of a fork, each run to its end. */
  datatype Family = Family(kids: seq<Exec>, aborted: bool)

  function KidsOf(execs: seq<Exec>): seq<Kid> {
    seq(|execs|, i requires 0 <= i < |execs| => Kid(execs[i].text, execs[i].forkPos))
  }

  function VariablesOf(execs: seq<Exec>): seq<map<string, Value>> {
    seq(|execs|, i requires 0 <= i < |execs| => execs[i].variables)
  }

  function CallsOf(execs: seq<Exec>): seq<Call> {
    if execs == [] then [] else CallsOf(execs[..|execs| - 1]) + execs[|execs| - 1].calls
  }

  /** The parent after its children ended, before they are joined; the calls of the whole family are kept. */
  function AfterFamily(s: Exec, kids: seq<Exec>): Exec {
    s.(forks := s.forks + 1, calls := s.calls + CallsOf(kids))
  }

  function JoinFamily(c: Config, b: Backend, s: Exec, kids: seq<Exec>, gather: bool): Exec {
    var after := AfterFamily(s, kids);
    if gather then after.(variables := Gathered(s.variables, VariablesOf(kids)))
    else Execute(c, b, after, ConcateAndAppend(KidsOf(kids)))
  }

  function SubmitValue(c: Config, b: Backend, s: Exec, v: Option<PyVal>): Ran {
    if v.None? then Ran(s, true) else Ran(Submit(c, b, s, ToExpr(v.value)), false)
  }

  function RunStmt(c: Config, b: Backend, args: Arguments, s: Exec, stmt: Stmt): Ran
    decreases stmt, 1
  {
    match stmt
    case Append(p) => SubmitValue(c, b, s, Eval(args, s.variables, p))
    case RoleCall(role, p) => SubmitValue(c, b, s, Eval(args, s.variables, InRole(role, p)))
    case IfArg(name, thn, els) => Run(c, b, args, s, if args(name) != "" then thn.stmts else els.stmts)
    case IfArgMeets(name, test, _, thn, els) => Run(c, b, args, s, if test(args(name)) then thn.stmts else els.stmts)
    case IfVarIs(name, lit, thn, els) =>
      var v := VarIs(s, name, lit);
      if v.None? then Ran(s, true) else Run(c, b, args, s, if v.value then thn.stmts else els.stmts)
    case ForkJoin(kids, gather) =>
      // Forking waits for the worker; after an exception the program gets no further here.
      if s.raised then Ran(s, true)
      else
        var family := RunKids(c, b, args, s, kids);
        if family.aborted then Ran(AfterFamily(s, family.kids), true)
        else Ran(JoinFamily(c, b, s, family.kids, gather), false)
  }

  function Run(c: Config, b: Backend, args: Arguments, s: Exec, stmts: seq<Stmt>): Ran
    decreases stmts, 0
  {
    if stmts == [] then Ran(s, false)
    else
      var first := RunStmt(c, b, args, s, stmts[0]);
      if first.aborted then first else Run(c, b, args, first.s, stmts[1..])
  }

  function RunKids(c: Config, b: Backend, args: Arguments, s: Exec, kids: seq<Body>): (f: Family)
    ensures |f.kids| == |kids|
    decreases kids, 0
  {
    if kids == [] then Family([], false)
    else
      var last := |kids| - 1;
      var front := RunKids(c, b, args, s, kids[..last]);
      var kid := Run(c, b, args, ForkChild(s, last), kids[last].stmts);
      Family(front.kids + [kid.s], front.aborted || kid.aborted)
  }

  // ---------- What every run keeps ----------

  lemma SubmitGrows(c: Config, b: Backend, s: Exec, e: Expr)
    ensures Grows(s, Submit(c, b, s, e))
  {
    ExecuteExtends(c, b, InitEvents(s, Announced(e)), e);
  }

  /** A kid started from `s`: its text extends the text of `s`, and so does all it sent to the backend. */
  ghost predicate Offspring(s: Exec, kid: Exec) {
    && kid.forkPos == Some(|s.text|)
    && s.text <= kid.text
    && forall k :: 0 <= k < |kid.calls| ==> s.text <= kid.calls[k].text
  }

  lemma {:induction false} CallsOfOffspring(s: Exec, kids: seq<Exec>)
    requires forall i :: 0 <= i < |kids| ==> Offspring(s, kids[i])
    ensures forall k :: 0 <= k < |CallsOf(kids)| ==> s.text <= CallsOf(kids)[k].text
    decreases |kids|
  {
    if kids != [] {
      CallsOfOffspring(s, kids[..|kids| - 1]);
    }
  }

  lemma AfterFamilyGrows(s: Exec, kids: seq<Exec>)
    requires forall i :: 0 <= i < |kids| ==> Offspring(s, kids[i])
    ensures Grows(s, AfterFamily(s, kids))
  {
    CallsOfOffspring(s, kids);
  }

  /** Any statement only appends, also through forks at any depth. */
  lemma {:induction false} RunStmtGrows(c: Config, b: Backend, args: Arguments, s: Exec, stmt: Stmt)
    ensures Grows(s, RunStmt(c, b, args, s, stmt).s)
    decreases stmt, 1
  {
    match stmt
    case Append(p) =>
      var v := Eval(args, s.variables, p);
      if v.Some? {
        SubmitGrows(c, b, s, ToExpr(v.value));
      }
    case RoleCall(role, p) =>
      var v := Eval(args, s.variables, InRole(role, p));
      if v.Some? {
        SubmitGrows(c, b, s, ToExpr(v.value));
      }
    case IfArg(name, thn, els) =>
      RunGrows(c, b, args, s, thn.stmts);
      RunGrows(c, b, args, s, els.stmts);
    case IfArgMeets(_, _, _, thn, els) =>
      RunGrows(c, b, args, s, thn.stmts);
      RunGrows(c, b, args, s, els.stmts);
    case IfVarIs(name, lit, thn, els) =>
      RunGrows(c, b, args, s, thn.stmts);
      RunGrows(c, b, args, s, els.stmts);
    case ForkJoin(bodies, gather) =>
      if !s.raised {
        ChildrenExtendTheParent(c, b, args, s, bodies);
        var kids := RunKids(c, b, args, s, bodies).kids;
        AfterFamilyGrows(s, kids);
        var after := AfterFamily(s, kids);
        ExecuteExtends(c, b, after, ConcateAndAppend(KidsOf(kids)));
        GrowsTransitive(s, after, Execute(c, b, after, ConcateAndAppend(KidsOf(kids))));
      }
  }

  lemma {:induction false} RunGrows(c: Config, b: Backend, args: Arguments, s: Exec, stmts: seq<Stmt>)
    ensures Grows(s, Run(c, b, args, s, stmts).s)
    decreases stmts, 0
  {
    if stmts != [] {
      var first := RunStmt(c, b, args, s, stmts[0]);
      RunStmtGrows(c, b, args, s, stmts[0]);
      if !first.aborted {
        RunGrows(c, b, args, first.s, stmts[1..]);
        GrowsTransitive(s, first.s, Run(c, b, args, first.s, stmts[1..]).s);
      }
    }
  }

  /** Whatever the children do, the text of each extends the parent's text at the fork. */
  lemma {:induction false} ChildrenExtendTheParent(c: Config, b: Backend, args: Arguments, s: Exec, bodies: seq<Body>)
    ensures forall i :: 0 <= i < |bodies| ==> Offspring(s, RunKids(c, b, args, s, bodies).kids[i])
    decreases bodies, 0
  {
    if bodies != [] {
      var last := |bodies| - 1;
      ChildrenExtendTheParent(c, b, args, s, bodies[..last]);
      RunGrows(c, b, args, ForkChild(s, last), bodies[last].stmts);
    }
  }

  /** Joining by concatenation never fails and, on either path, leaves the parent's text followed by what each child added, in child order. */
  lemma JoinConservesText(c: Config, b: Backend, args: Arguments, s: Exec, bodies: seq<Body>)
    requires !s.raised
    ensures var kids := RunKids(c, b, args, s, bodies).kids;
            var joined := JoinFamily(c, b, s, kids, false);
            && !joined.raised
            && joined.text == s.text + Additions(KidsOf(kids))
            && forall i :: 0 <= i < |kids| ==> kids[i].text == s.text + Addition(KidsOf(kids)[i])
  {
    ChildrenExtendTheParent(c, b, args, s, bodies);
    JoinOfOffspring(c, b, s, RunKids(c, b, args, s, bodies).kids);
    forall i | 0 <= i < |bodies| {
      OffspringAddition(s, RunKids(c, b, args, s, bodies).kids[i]);
    }
  }

  lemma OffspringAddition(s: Exec, kid: Exec)
    requires Offspring(s, kid)
    ensures kid.text == s.text + Addition(Kid(kid.text, kid.forkPos))
  {}

  lemma JoinOfOffspring(c: Config, b: Backend, s: Exec, kids: seq<Exec>)
    requires !s.raised && forall i :: 0 <= i < |kids| ==> Offspring(s, kids[i])
    ensures JoinFamily(c, b, s, kids, false) ==
            if c.kvJoin then WithText(AfterFamily(s, kids), s.text + Additions(KidsOf(kids)))
            else Fill(AfterFamily(s, kids), Additions(KidsOf(kids)))
  {
    assert ForkedAt(KidsOf(kids), |s.text|);
    KvJoinMeetsTextJoin(AfterFamily(s, kids), KidsOf(kids), |s.text|);
  }

  // ---------- The cache path against the text path, for whole programs ----------

  /** Nodes a program may build itself; joins are made only by fork and join. */
  predicate Joinless(e: Expr)
    decreases e, 1
  {
    match e
    case ConcateAndAppend(_) => false
    case ExprList(items) => AllJoinless(items)
    case _ => true
  }

  predicate AllJoinless(es: seq<Expr>)
    decreases es, 0
  {
    es == [] || (Joinless(es[0]) && AllJoinless(es[1..]))
  }

  predicate JoinlessPy(p: Py) {
    match p
    case Node(e) => Joinless(e)
    case Plus(left, right) => JoinlessPy(left) && JoinlessPy(right)
    case InRole(_, body) => JoinlessPy(body)
    case _ => true
  }

  predicate JoinlessStmt(stmt: Stmt)
    decreases stmt, 1
  {
    match stmt
    case Append(p) => JoinlessPy(p)
    case RoleCall(_, p) => JoinlessPy(p)
    case IfArg(_, thn, els) => JoinlessStmts(thn.stmts) && JoinlessStmts(els.stmts)
    case IfArgMeets(_, _, _, thn, els) => JoinlessStmts(thn.stmts) && JoinlessStmts(els.stmts)
    case IfVarIs(_, _, thn, els) => JoinlessStmts(thn.stmts) && JoinlessStmts(els.stmts)
    case ForkJoin(kids, _) => JoinlessBodies(kids)
  }

  predicate JoinlessStmts(stmts: seq<Stmt>)
    decreases stmts, 0
  {
    stmts == [] || (JoinlessStmt(stmts[0]) && JoinlessStmts(stmts[1..]))
  }

  predicate JoinlessBodies(bodies: seq<Body>)
    decreases bodies, 0
  {
    bodies == [] || (JoinlessBodies(bodies[..|bodies| - 1]) && JoinlessStmts(bodies[|bodies| - 1].stmts))
  }

  predicate Direct(s: Exec) {
    s.specTokens.None? && s.speculated == ""
  }

  lemma {:induction false} AllJoinlessAppend(xs: seq<Expr>, ys: seq<Expr>)
    requires AllJoinless(xs) && AllJoinless(ys)
    ensures AllJoinless(xs + ys)
    decreases |xs|
  {
    if xs == [] {
      assert xs + ys == ys;
    } else {
      assert (xs + ys)[1..] == xs[1..] + ys;
      AllJoinlessAppend(xs[1..], ys);
    }
  }

  lemma {:induction false} EvalJoinless(args: Arguments, variables: map<string, Value>, p: Py)
    requires JoinlessPy(p)
    ensures Eval(args, variables, p).Some? ==> Joinless(ToExpr(Eval(args, variables, p).value))
  {
    match p
    case Plus(left, right) =>
      EvalJoinless(args, variables, left);
      EvalJoinless(args, variables, right);
      var (v, w) := (Eval(args, variables, left), Eval(args, variables, right));
      if v.Some? && w.Some? {
        ConcatenateIrItems(ToExpr(v.value), ToExpr(w.value));
        ItemsJoinless(ToExpr(v.value));
        ItemsJoinless(ToExpr(w.value));
        AllJoinlessAppend(Items(ToExpr(v.value)), Items(ToExpr(w.value)));
      }
    case InRole(role, body) =>
      EvalJoinless(args, variables, body);
      var v := Eval(args, variables, body);
      if v.Some? {
        var (begin, e, end) := (RoleBegin(role), ToExpr(v.value), RoleEnd(role));
        OneJoinless(begin);
        OneJoinless(e);
        OneJoinless(end);
        AllJoinlessAppend([begin], [e]);
        AllJoinlessAppend([begin] + [e], [end]);
        assert [begin, e, end] == [begin] + [e] + [end];
      }
    case _ =>
  }

  lemma OneJoinless(e: Expr)
    requires Joinless(e)
    ensures AllJoinless([e])
  {
    assert [e][1..] == [];
  }

  lemma ItemsJoinless(e: Expr)
    requires Joinless(e)
    ensures AllJoinless(Items(e))
  {
    OneJoinless(e);
  }

  lemma GenStaysDirect(c: Config, b: Backend, s: Exec, name: string, params: Params)
    requires Direct(s)
    ensures ExecuteGen(c.(kvJoin := true), b, s, name, params) == ExecuteGen(c.(kvJoin := false), b, s, name, params)
    ensures Direct(ExecuteGen(c.(kvJoin := false), b, s, name, params))
  {}

  lemma RoleBeginStaysDirect(c: Config, s: Exec, role: string)
    requires Direct(s)
    ensures ExecuteRoleBegin(c.(kvJoin := true), s, role) == ExecuteRoleBegin(c.(kvJoin := false), s, role)
    ensures Direct(ExecuteRoleBegin(c.(kvJoin := false), s, role))
  {
    if NeedsDefaultSystem(c, s, role) {
      assert WithDefaultSystem(c.(kvJoin := true), s) == WithDefaultSystem(c.(kvJoin := false), s);
    }
  }

  lemma {:induction false} JoinlessIgnoresPath(c: Config, b: Backend, s: Exec, e: Expr)
    requires Joinless(e) && Direct(s)
    ensures Execute(c.(kvJoin := true), b, s, e) == Execute(c.(kvJoin := false), b, s, e)
    ensures Direct(Execute(c.(kvJoin := false), b, s, e))
    decreases e, 1
  {
    match e
    case ExprList(items) => AllJoinlessIgnorePath(c, b, s, items);
    case Gen(name, params) => GenStaysDirect(c, b, s, name, params);
    case RoleBegin(role) => RoleBeginStaysDirect(c, s, role);
    case _ =>
  }

  lemma {:induction false} AllJoinlessIgnorePath(c: Config, b: Backend, s: Exec, es: seq<Expr>)
    requires AllJoinless(es) && Direct(s)
    ensures ExecuteAll(c.(kvJoin := true), b, s, es) == ExecuteAll(c.(kvJoin := false), b, s, es)
    ensures Direct(ExecuteAll(c.(kvJoin := false), b, s, es))
    decreases es, 0
  {
    if es != [] {
      JoinlessIgnoresPath(c, b, s, es[0]);
      AllJoinlessIgnorePath(c, b, Execute(c.(kvJoin := false), b, s, es[0]), es[1..]);
    }
  }

  lemma SubmitIgnoresPath(c: Config, b: Backend, args: Arguments, s: Exec, p: Py)
    requires JoinlessPy(p) && Direct(s)
    ensures SubmitValue(c.(kvJoin := true), b, s, Eval(args, s.variables, p)) ==
            SubmitValue(c.(kvJoin := false), b, s, Eval(args, s.variables, p))
    ensures Direct(SubmitValue(c.(kvJoin := false), b, s, Eval(args, s.variables, p)).s)
  {
    EvalJoinless(args, s.variables, p);
    var v := Eval(args, s.variables, p);
    if v.Some? {
      var e := ToExpr(v.value);
      JoinlessIgnoresPath(c, b, InitEvents(s, Announced(e)), e);
    }
  }

  /** A run that does not speculate ends in the same state whichever path its joins take, at any nesting of forks. */
  lemma {:induction false} JoinPathsAgree(c: Config, b: Backend, args: Arguments, s: Exec, stmts: seq<Stmt>)
    requires JoinlessStmts(stmts) && Direct(s)
    ensures Run(c.(kvJoin := true), b, args, s, stmts) == Run(c.(kvJoin := false), b, args, s, stmts)
    ensures Direct(Run(c.(kvJoin := false), b, args, s, stmts).s)
    decreases stmts, 0
  {
    if stmts != [] {
      var first := RunStmt(c.(kvJoin := false), b, args, s, stmts[0]);
      StmtPathsAgree(c, b, args, s, stmts[0]);
      if !first.aborted {
        JoinPathsAgree(c, b, args, first.s, stmts[1..]);
      }
    }
  }

  lemma {:induction false} StmtPathsAgree(c: Config, b: Backend, args: Arguments, s: Exec, stmt: Stmt)
    requires JoinlessStmt(stmt) && Direct(s)
    ensures RunStmt(c.(kvJoin := true), b, args, s, stmt) == RunStmt(c.(kvJoin := false), b, args, s, stmt)
    ensures Direct(RunStmt(c.(kvJoin := false), b, args, s, stmt).s)
    decreases stmt, 1
  {
    match stmt
    case Append(p) => SubmitIgnoresPath(c, b, args, s, p);
    case RoleCall(role, p) => SubmitIgnoresPath(c, b, args, s, InRole(role, p));
    case IfArg(name, thn, els) =>
      JoinPathsAgree(c, b, args, s, thn.stmts);
      JoinPathsAgree(c, b, args, s, els.stmts);
    case IfArgMeets(_, _, _, thn, els) =>
      JoinPathsAgree(c, b, args, s, thn.stmts);
      JoinPathsAgree(c, b, args, s, els.stmts);
    case IfVarIs(name, lit, thn, els) =>
      JoinPathsAgree(c, b, args, s, thn.stmts);
      JoinPathsAgree(c, b, args, s, els.stmts);
    case ForkJoin(bodies, gather) =>
      if !s.raised {
        KidsIgnorePath(c, b, args, s, bodies);
        FamilyIgnoresPath(c, b, args, s, bodies, gather);
      }
  }

  lemma {:induction false} KidsIgnorePath(c: Config, b: Backend, args: Arguments, s: Exec, bodies: seq<Body>)
    requires JoinlessBodies(bodies)
    ensures RunKids(c.(kvJoin := true), b, args, s, bodies) == RunKids(c.(kvJoin := false), b, args, s, bodies)
    decreases bodies, 0
  {
    if bodies != [] {
      var last := |bodies| - 1;
      KidsIgnorePath(c, b, args, s, bodies[..last]);
      JoinPathsAgree(c, b, args, ForkChild(s, last), bodies[last].stmts);
    }
  }

  lemma FamilyIgnoresPath(c: Config, b: Backend, args: Arguments, s: Exec, bodies: seq<Body>, gather: bool)
    requires !s.raised && Direct(s)
    ensures var kids := RunKids(c.(kvJoin := false), b, args, s, bodies).kids;
            && JoinFamily(c.(kvJoin := true), b, s, kids, gather) == JoinFamily(c.(kvJoin := false), b, s, kids, gather)
            && Direct(JoinFamily(c.(kvJoin := false), b, s, kids, gather))
  {
    ChildrenExtendTheParent(c.(kvJoin := false), b, args, s, bodies);
    var kids := RunKids(c.(kvJoin := false), b, args, s, bodies).kids;
    if !gather {
      JoinOfOffspring(c.(kvJoin := true), b, s, kids);
      JoinOfOffspring(c.(kvJoin := false), b, s, kids);
    }
  }
}
