/** No request is made twice: over a whole run with its forks, each call differs from every other by executor or number. */
module CallIdentities {
  import opened Options
  import opened Text
  import opened Ir
  import opened Executor
  import opened Programs

  /** New calls are the executor's own, and numbered by their place. */
  ghost predicate OwnCalls(s: Exec, t: Exec) {
    && s.calls <= t.calls && t.sid == s.sid && t.forks == s.forks
    && forall k :: |s.calls| <= k < |t.calls| ==> t.calls[k].sid == s.sid && t.calls[k].index == k
  }

  lemma OwnTransitive(s: Exec, t: Exec, u: Exec)
    requires OwnCalls(s, t) && OwnCalls(t, u)
    ensures OwnCalls(s, u)
  {
    forall k | |s.calls| <= k < |u.calls|
      ensures u.calls[k].sid == s.sid && u.calls[k].index == k
    {
      if k < |t.calls| {
        assert u.calls[k] == t.calls[k];
      }
    }
  }

  lemma {:induction false} KvOwn(s: Exec, kids: seq<Kid>, origin: nat)
    ensures OwnCalls(s, ConcatenateKv(s, kids, origin))
    decreases |kids|
  {
    if kids != [] && kids[0].forkPos == Some(origin) {
      KvOwn(s.(text := s.text + Addition(kids[0])), kids[1..], origin);
    }
  }

  lemma GenOwn(c: Config, b: Backend, s: Exec, name: string, params: Params)
    ensures OwnCalls(s, ExecuteGen(c, b, s, name, params))
  {
    if !c.stream && s.specTokens.Some? {
      var (comp, after) := SpecGen(b, s, params);
      assert OwnCalls(s, after);
      PublishOwn(s, after, name, comp, Str(comp));
    } else {
      var call := Ask(s, if c.stream then ForStream(params) else ForGen(params));
      var asked := s.(calls := s.calls + [call]);
      assert OwnCalls(s, asked);
      if c.stream {
        PublishOwn(s, asked, name, Join(b.generateStream(call)), Str(Join(b.generateStream(call))));
      } else {
        match b.generate(call)
        case One(comp) => PublishOwn(s, asked, name, comp, Str(comp));
        case Several(comps) =>
          if comps != [] {
            PublishOwn(s, asked, name, comps[0], Many(Strs(comps)));
          }
      }
    }
  }

  lemma PublishOwn(s: Exec, t: Exec, name: string, addition: string, value: Value)
    requires OwnCalls(s, t)
    ensures OwnCalls(s, Publish(t, name, addition, value))
  {}

  lemma {:induction false} ExecuteOwn(c: Config, b: Backend, s: Exec, e: Expr)
    ensures OwnCalls(s, Execute(c, b, s, e))
    decreases e, 1
  {
    match e
    case ExprList(items) => ExecuteAllOwn(c, b, s, items);
    case Gen(name, params) => GenOwn(c, b, s, name, params);
    case RoleBegin(role) => assert Ready(c, s, role).calls == s.calls && Ready(c, s, role).sid == s.sid && Ready(c, s, role).forks == s.forks;
    case ConcateAndAppend(kids) => KvOwn(s, kids, |s.text|);
    case _ =>
  }

  lemma {:induction false} ExecuteAllOwn(c: Config, b: Backend, s: Exec, es: seq<Expr>)
    ensures OwnCalls(s, ExecuteAll(c, b, s, es))
    decreases es, 0
  {
    if es != [] {
      var next := Execute(c, b, s, es[0]);
      ExecuteOwn(c, b, s, es[0]);
      ExecuteAllOwn(c, b, next, es[1..]);
      OwnTransitive(s, next, ExecuteAll(c, b, next, es[1..]));
    }
  }

  predicate SameIdentity(x: Call, y: Call) { x.sid == y.sid && x.index == y.index }

  predicate Distinct(calls: seq<Call>) {
    forall j, k :: 0 <= j < k < |calls| ==> !SameIdentity(calls[j], calls[k])
  }

  /** A call of this executor is numbered by its place; a call from below comes through one of its forks so far. */
  predicate Placed(s: Exec, call: Call, k: nat) {
    && s.sid <= call.sid
    && (|call.sid| == |s.sid| ==> call.index == k)
    && (|call.sid| > |s.sid| ==> call.sid[|s.sid|] < s.forks)
  }

  predicate Identified(s: Exec) {
    Distinct(s.calls) && forall k :: 0 <= k < |s.calls| ==> Placed(s, s.calls[k], k)
  }

  lemma OwnKeepsIdentified(s: Exec, t: Exec)
    requires Identified(s) && OwnCalls(s, t)
    ensures Identified(t)
  {
    forall k | 0 <= k < |t.calls|
      ensures Placed(t, t.calls[k], k)
    {
      if k < |s.calls| {
        assert t.calls[k] == s.calls[k] && Placed(s, s.calls[k], k);
      }
    }
    forall j, k | 0 <= j < k < |t.calls|
      ensures !SameIdentity(t.calls[j], t.calls[k])
    {
      if k < |s.calls| {
        assert t.calls[j] == s.calls[j] && t.calls[k] == s.calls[k];
      } else {
        assert Placed(t, t.calls[j], j);
      }
    }
  }

  /** A call from below child `i` of the fork that comes next. */
  predicate FromChild(s: Exec, call: Call, i: nat) {
    && |call.sid| >= |s.sid| + 2 && s.sid <= call.sid
    && call.sid[|s.sid|] == s.forks && call.sid[|s.sid| + 1] == i
  }

  predicate FromChildrenBelow(s: Exec, calls: seq<Call>, n: nat) {
    forall k :: 0 <= k < |calls| ==> |calls[k].sid| >= |s.sid| + 2 && calls[k].sid[|s.sid| + 1] < n && FromChild(s, calls[k], calls[k].sid[|s.sid| + 1])
  }

  lemma ChildCalls(s: Exec, kid: Exec, i: nat)
    requires Identified(kid) && kid.sid == s.sid + [s.forks, i]
    ensures forall k :: 0 <= k < |kid.calls| ==> FromChild(s, kid.calls[k], i)
  {
    forall k | 0 <= k < |kid.calls|
      ensures FromChild(s, kid.calls[k], i)
    {
      var call := kid.calls[k];
      assert Placed(kid, call, k);
      assert call.sid[..|kid.sid|] == kid.sid;
      assert s.sid == kid.sid[..|s.sid|] == call.sid[..|s.sid|];
      assert call.sid[|s.sid|] == kid.sid[|s.sid|] && call.sid[|s.sid| + 1] == kid.sid[|s.sid| + 1];
    }
  }

  lemma {:induction false} FamilyCalls(s: Exec, kids: seq<Exec>)
    requires forall i :: 0 <= i < |kids| ==> Identified(kids[i]) && kids[i].sid == s.sid + [s.forks, i]
    ensures Distinct(CallsOf(kids)) && FromChildrenBelow(s, CallsOf(kids), |kids|)
    decreases |kids|
  {
    if kids != [] {
      var last := |kids| - 1;
      var (front, calls) := (CallsOf(kids[..last]), kids[last].calls);
      FamilyCalls(s, kids[..last]);
      ChildCalls(s, kids[last], last);
      forall j, k | 0 <= j < k < |front + calls|
        ensures !SameIdentity((front + calls)[j], (front + calls)[k])
      {
        if j < |front| <= k {
          assert FromChild(s, calls[k - |front|], last);
        }
      }
    }
  }

  lemma AfterFamilyIdentified(s: Exec, kids: seq<Exec>)
    requires Identified(s)
    requires forall i :: 0 <= i < |kids| ==> Identified(kids[i]) && kids[i].sid == s.sid + [s.forks, i]
    ensures Identified(AfterFamily(s, kids))
  {
    var (t, more) := (AfterFamily(s, kids), CallsOf(kids));
    FamilyCalls(s, kids);
    forall k | 0 <= k < |t.calls|
      ensures Placed(t, t.calls[k], k)
    {
      if k < |s.calls| {
        assert Placed(s, s.calls[k], k);
      } else {
        assert t.calls[k] == more[k - |s.calls|];
      }
    }
    forall j, k | 0 <= j < k < |t.calls|
      ensures !SameIdentity(t.calls[j], t.calls[k])
    {
      if j < |s.calls| <= k {
        assert Placed(s, s.calls[j], j) && t.calls[k] == more[k - |s.calls|];
      } else if |s.calls| <= j {
        assert t.calls[j] == more[j - |s.calls|] && t.calls[k] == more[k - |s.calls|];
      }
    }
  }

  lemma {:induction false} StmtIdentified(c: Config, b: Backend, args: Arguments, s: Exec, stmt: Stmt)
    requires Identified(s)
    ensures Identified(RunStmt(c, b, args, s, stmt).s) && RunStmt(c, b, args, s, stmt).s.sid == s.sid
    decreases stmt, 1
  {
    match stmt
    case Append(p) => SubmitIdentified(c, b, s, Eval(args, s.variables, p));
    case RoleCall(role, p) => SubmitIdentified(c, b, s, Eval(args, s.variables, InRole(role, p)));
    case IfArg(name, thn, els) => RunIdentified(c, b, args, s, if args(name) != "" then thn.stmts else els.stmts);
    case IfArgMeets(name, test, _, thn, els) => RunIdentified(c, b, args, s, if test(args(name)) then thn.stmts else els.stmts);
    case IfVarIs(name, lit, thn, els) =>
      var v := VarIs(s, name, lit);
      if v.Some? {
        RunIdentified(c, b, args, s, if v.value then thn.stmts else els.stmts);
      }
    case ForkJoin(bodies, gather) =>
      if !s.raised {
        var kids := RunKids(c, b, args, s, bodies).kids;
        KidsIdentified(c, b, args, s, bodies);
        AfterFamilyIdentified(s, kids);
        var (after, join) := (AfterFamily(s, kids), ConcateAndAppend(KidsOf(kids)));
        ExecuteOwn(c, b, after, join);
        OwnKeepsIdentified(after, Execute(c, b, after, join));
      }
  }

  lemma SubmitIdentified(c: Config, b: Backend, s: Exec, v: Option<PyVal>)
    requires Identified(s)
    ensures Identified(SubmitValue(c, b, s, v).s) && SubmitValue(c, b, s, v).s.sid == s.sid
  {
    if v.Some? {
      var ready := InitEvents(s, Announced(ToExpr(v.value)));
      OwnKeepsIdentified(s, ready);
      ExecuteOwn(c, b, ready, ToExpr(v.value));
      OwnKeepsIdentified(ready, Execute(c, b, ready, ToExpr(v.value)));
    }
  }

  lemma {:induction false} KidsIdentified(c: Config, b: Backend, args: Arguments, s: Exec, bodies: seq<Body>)
    ensures var kids := RunKids(c, b, args, s, bodies).kids;
            forall i :: 0 <= i < |kids| ==> Identified(kids[i]) && kids[i].sid == s.sid + [s.forks, i]
    decreases bodies, 0
  {
    if bodies != [] {
      var last := |bodies| - 1;
      KidsIdentified(c, b, args, s, bodies[..last]);
      RunIdentified(c, b, args, ForkChild(s, last), bodies[last].stmts);
    }
  }

  lemma {:induction false} RunIdentified(c: Config, b: Backend, args: Arguments, s: Exec, stmts: seq<Stmt>)
    requires Identified(s)
    ensures Identified(Run(c, b, args, s, stmts).s) && Run(c, b, args, s, stmts).s.sid == s.sid
    decreases stmts, 0
  {
    if stmts != [] {
      var first := RunStmt(c, b, args, s, stmts[0]);
      StmtIdentified(c, b, args, s, stmts[0]);
      if !first.aborted {
        RunIdentified(c, b, args, first.s, stmts[1..]);
      }
    }
  }

  /** Over a whole run, forks at any depth included, no two calls have the same executor and number. */
  lemma NoCallIsMadeTwice(c: Config, b: Backend, args: Arguments, sid: seq<nat>, specTokens: Option<nat>, stmts: seq<Stmt>)
    ensures var calls := Run(c, b, args, Fresh(sid, specTokens), stmts).s.calls;
            forall j, k :: 0 <= j < k < |calls| ==> calls[j].sid != calls[k].sid || calls[j].index != calls[k].index
  {
    RunIdentified(c, b, args, Fresh(sid, specTokens), stmts);
    var calls := Run(c, b, args, Fresh(sid, specTokens), stmts).s.calls;
    forall j, k | 0 <= j < k < |calls|
      ensures calls[j].sid != calls[k].sid || calls[j].index != calls[k].index
    {
      assert !SameIdentity(calls[j], calls[k]);
    }
  }
}
