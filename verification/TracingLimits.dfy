/** Where tracing goes wrong: the exact conditions on the texts and the tests that a program makes of its arguments. */
module TracingLimits {
  import opened Options
  import opened Text
  import opened ChatTemplates
  import opened Ir
  import opened Executor
  import opened Programs
  import opened Tracer
  import opened TracingSoundness

  lemma {:induction false} RunAppend(c: Config, b: Backend, args: Arguments, s: Exec, xs: seq<Stmt>, ys: seq<Stmt>)
    ensures var ran := Run(c, b, args, s, xs);
            Run(c, b, args, s, xs + ys) == if ran.aborted then ran else Run(c, b, args, ran.s, ys)
    decreases |xs|
  {
    if xs == [] {
      assert xs + ys == ys;
    } else {
      assert (xs + ys)[1..] == xs[1..] + ys;
      RunAppend(c, b, args, RunStmt(c, b, args, s, xs[0]).s, xs[1..], ys);
    }
  }

  lemma {:induction false} TraceStmtsAppend(t: ChatTemplate, p: Signature, tr: Trace, xs: seq<Stmt>, ys: seq<Stmt>)
    ensures TraceStmts(t, p, tr, xs + ys) == TraceStmts(t, p, TraceStmts(t, p, tr, xs), ys)
    decreases |xs|
  {
    if xs == [] {
      assert xs + ys == ys;
    } else {
      assert (xs + ys)[1..] == xs[1..] + ys;
      TraceStmtsAppend(t, p, TraceStmt(t, p, tr, xs[0]), xs[1..], ys);
    }
  }

  lemma {:induction false} AvoidsTestsAppend(t: ChatTemplate, p: Signature, args: Arguments, tr: Trace, xs: seq<Stmt>, ys: seq<Stmt>)
    ensures AvoidsTests(t, p, args, tr, xs + ys) <==>
            AvoidsTests(t, p, args, tr, xs) && AvoidsTests(t, p, args, TraceStmts(t, p, tr, xs), ys)
    decreases |xs|
  {
    if xs == [] {
      assert xs + ys == ys;
    } else {
      assert (xs + ys)[1..] == xs[1..] + ys;
      AvoidsTestsAppend(t, p, args, TraceStmt(t, p, tr, xs[0]), xs[1..], ys);
      TraceStmtsLater(t, p, tr, xs);
      LaterPrefix(tr, TraceStmts(t, p, tr, xs));
    }
  }

  /** A run of a program, up to what the program does. */
  datatype Setting = Setting(c: Config, b: Backend, p: Signature, args: Arguments, sid: seq<nat>, specTokens: Option<nat>)
  {
    function Start(): Exec { Fresh(sid, specTokens) }

    function RunOf(stmts: seq<Stmt>): Ran { Run(c, b, args, Start(), stmts) }

    function TraceOf(stmts: seq<Stmt>): Trace { TraceStmts(c.template, p, Untraced(), stmts) }

    ghost predicate TracedRight(stmts: seq<Stmt>) { WellTraced(c, b, Program(p, stmts), args, sid, specTokens) }

    /** After these statements the tracer and the run are at the same point. */
    ghost predicate SyncedAfter(pre: seq<Stmt>) { !RunOf(pre).aborted && Synced(TraceOf(pre), RunOf(pre).s) }

    /** What the tracer reaches of `stmts` after `pre` is answered alike. */
    predicate AvoidedAfter(pre: seq<Stmt>, stmts: seq<Stmt>) { AvoidsTests(c.template, p, args, TraceOf(pre), stmts) }
  }

  lemma AvoidedIsTracedRight(g: Setting, pre: seq<Stmt>, rest: seq<Stmt>)
    requires Agree(g.p, g.args) && g.SyncedAfter(pre) && g.AvoidedAfter(pre, rest)
    ensures g.TracedRight(pre + rest)
  {
    SimStmts(g.c, g.b, g.p, g.args, g.TraceOf(pre), g.RunOf(pre).s, rest);
    TraceStmtsAppend(g.c.template, g.p, Untraced(), pre, rest);
    RunAppend(g.c, g.b, g.args, g.Start(), pre, rest);
    SimIsWellTraced(g.c, g.b, Program(g.p, pre + rest), g.args, g.sid, g.specTokens);
  }

  // ---------- Misleading the tracer ----------

  /** Two texts that differ within both. */
  ghost predicate Clash(x: string, y: string) {
    exists i :: 0 <= i < |x| && i < |y| && x[i] != y[i]
  }

  /** The run goes on to write `x` where the tracer goes on with `y` and then stops. */
  ghost predicate Parts(g: Setting, pre: seq<Stmt>, rest: seq<Stmt>, x: string, y: string) {
    var (tu, ran) := (TraceStmts(g.c.template, g.p, g.TraceOf(pre), rest), Run(g.c, g.b, g.args, g.RunOf(pre).s, rest));
    tu.status == Stopped && Prefix(tu) == Prefix(g.TraceOf(pre)) + y && g.RunOf(pre).s.text + x <= ran.s.text
  }

  lemma ExtractedIsPrefix(g: Setting, stmts: seq<Stmt>)
    requires !g.TraceOf(stmts).status.Failed?
    ensures ExtractedPrefix(g.c.template, Program(g.p, stmts)) == Some(Prefix(g.TraceOf(stmts)))
  {
    TraceStmtsFlat(g.c.template, g.p, Untraced(), stmts);
    FlattenConstPrefix(g.TraceOf(stmts).nodes);
  }

  lemma PartingIsWrong(g: Setting, pre: seq<Stmt>, rest: seq<Stmt>, x: string, y: string)
    requires g.SyncedAfter(pre) && Parts(g, pre, rest, x, y) && Clash(x, y)
    ensures ExtractedPrefix(g.c.template, Program(g.p, pre + rest)) == Some(g.RunOf(pre).s.text + y)
    ensures g.RunOf(pre).s.text + x <= g.RunOf(pre + rest).s.text
    ensures !g.TracedRight(pre + rest)
  {
    var text := g.RunOf(pre).s.text;
    TraceStmtsAppend(g.c.template, g.p, Untraced(), pre, rest);
    RunAppend(g.c, g.b, g.args, g.Start(), pre, rest);
    ExtractedIsPrefix(g, pre + rest);
    var i :| 0 <= i < |x| && i < |y| && x[i] != y[i];
    assert (text + x)[|text| + i] != (text + y)[|text| + i];
  }

  /** At the call of a role the tracer stops. */
  function StopTracing(): Stmt { RoleCall("user", Lit("")) }

  lemma WritesThenStops(t: ChatTemplate, p: Signature, tr: Trace, text: string, post: seq<Stmt>)
    requires Growing(tr)
    ensures var tu := TraceStmts(t, p, tr, [Append(Lit(text)), StopTracing()] + post);
            tu == TraceFill(tr, text).(status := Stopped) && Prefix(tu) == Prefix(tr) + text
  {
    var (stmts, written) := ([Append(Lit(text)), StopTracing()] + post, TraceFill(tr, text));
    var stopped := written.(status := Stopped);
    assert stmts[1..][1..] == post;
    assert TraceStmt(t, p, tr, stmts[0]) == written;
    assert TraceStmt(t, p, written, stmts[1..][0]) == stopped;
    assert TraceStmts(t, p, tr, stmts) == TraceStmts(t, p, written, stmts[1..]) == TraceStmts(t, p, stopped, post);
    TraceStmtsLater(t, p, stopped, post);
    ConstPrefixSnoc(tr.nodes, ConstantText(text));
  }

  lemma WritesThenGoesOn(c: Config, b: Backend, args: Arguments, s: Exec, py: Py, text: string, post: seq<Stmt>)
    requires !s.raised && Eval(args, s.variables, py) == Some(PStr(text))
    ensures var filled := Submit(c, b, s, ConstantText(text));
            && filled.text == s.text + text && !filled.raised && filled.variables == s.variables
            && Run(c, b, args, s, [Append(py)] + post) == Run(c, b, args, filled, post)
            && filled.text <= Run(c, b, args, s, [Append(py)] + post).s.text
  {
    var filled := Submit(c, b, s, ConstantText(text));
    assert ([Append(py)] + post)[1..] == post;
    assert RunStmt(c, b, args, s, Append(py)) == Ran(filled, false);
    RunGrows(c, b, args, filled, post);
  }

  lemma StoppingAvoidsAll(t: ChatTemplate, p: Signature, args: Arguments, tr: Trace, text: string, post: seq<Stmt>)
    ensures AvoidsTests(t, p, args, tr, [Append(Lit(text)), StopTracing()] + post)
  {
    var stmts := [Append(Lit(text)), StopTracing()] + post;
    var (tu, rest) := (TraceStmt(t, p, tr, stmts[0]), stmts[1..]);
    assert !Growing(TraceStmt(t, p, tu, rest[0]));
    assert AvoidsTests(t, p, args, TraceStmt(t, p, tu, rest[0]), rest[1..]);
    assert AvoidsTests(t, p, args, tu, rest);
  }

  // ---------- Tests ----------

  function WritingX(): Body { Body([Append(Lit("x"))]) }
  function WritingY(): Body { Body([Append(Lit("y")), StopTracing()]) }

  /** The branch for the placeholder writes another text than the one for the argument. */
  function MisleadingTest(name: string, test: string -> bool, placeholder: bool): Stmt {
    if placeholder then IfArgMeets(name, test, placeholder, WritingY(), WritingX())
    else IfArgMeets(name, test, placeholder, WritingX(), WritingY())
  }

  /** A test that an unbound argument answers unlike its placeholder misleads the tracer, whatever comes after. */
  lemma TestingAnArgumentMisleadsTheTracer(g: Setting, pre: seq<Stmt>, name: string, test: string -> bool, placeholder: bool, post: seq<Stmt>)
    requires g.SyncedAfter(pre) && name !in g.p.bound && test(g.args(name)) != placeholder
    ensures var rest := [MisleadingTest(name, test, placeholder)] + post;
            && ExtractedPrefix(g.c.template, Program(g.p, pre + rest)) == Some(g.RunOf(pre).s.text + "y")
            && g.RunOf(pre).s.text + "x" <= g.RunOf(pre + rest).s.text
            && !g.TracedRight(pre + rest)
  {
    var rest := [MisleadingTest(name, test, placeholder)] + post;
    MisledTrace(g, g.TraceOf(pre), name, test, placeholder, post);
    MisledRun(g, g.RunOf(pre).s, name, test, placeholder, post);
    assert "x"[0] != "y"[0];
    PartingIsWrong(g, pre, rest, "x", "y");
  }

  lemma MisledTrace(g: Setting, tr: Trace, name: string, test: string -> bool, placeholder: bool, post: seq<Stmt>)
    requires Growing(tr) && name !in g.p.bound
    ensures var tu := TraceStmts(g.c.template, g.p, tr, [MisleadingTest(name, test, placeholder)] + post);
            tu.status == Stopped && Prefix(tu) == Prefix(tr) + "y"
  {
    var first := MisleadingTest(name, test, placeholder);
    WritesThenStops(g.c.template, g.p, tr, "y", []);
    assert WritingY().stmts + [] == WritingY().stmts;
    assert ([first] + post)[1..] == post;
    var stopped := TraceStmt(g.c.template, g.p, tr, first);
    assert stopped == TraceStmts(g.c.template, g.p, tr, WritingY().stmts);
    TraceStmtsLater(g.c.template, g.p, stopped, post);
  }

  lemma MisledRun(g: Setting, s: Exec, name: string, test: string -> bool, placeholder: bool, post: seq<Stmt>)
    requires !s.raised && test(g.args(name)) != placeholder
    ensures s.text + "x" <= Run(g.c, g.b, g.args, s, [MisleadingTest(name, test, placeholder)] + post).s.text
  {
    var (first, filled) := (MisleadingTest(name, test, placeholder), Submit(g.c, g.b, s, ConstantText("x")));
    WritesThenGoesOn(g.c, g.b, g.args, s, Lit("x"), "x", []);
    assert WritingX().stmts + [] == WritingX().stmts;
    assert RunStmt(g.c, g.b, g.args, s, first) == Run(g.c, g.b, g.args, s, WritingX().stmts) == Ran(filled, false);
    assert ([first] + post)[1..] == post;
    RunGrows(g.c, g.b, g.args, filled, post);
  }

  /**
  A test that the tracer reaches is traced right, whatever its branches do, exactly when its argument is bound or answers it as the
  placeholder does. `name == "a"`, `name in (..)` and `name is None` are false of the placeholder, `name != "a"` is true of it.
  */
  lemma TestIsTracedExactlyWhen(g: Setting, pre: seq<Stmt>, name: string, test: string -> bool, placeholder: bool, post: seq<Stmt>)
    requires Agree(g.p, g.args) && g.SyncedAfter(pre)
    ensures (forall thn, els | g.AvoidedAfter(pre, TracedBranch(g.p, name, test, placeholder, thn, els) + post) ::
               g.TracedRight(pre + ([IfArgMeets(name, test, placeholder, thn, els)] + post)))
            <==> name in g.p.bound || test(g.args(name)) == placeholder
  {
    if name in g.p.bound || test(g.args(name)) == placeholder {
      forall thn, els | g.AvoidedAfter(pre, TracedBranch(g.p, name, test, placeholder, thn, els) + post)
        ensures g.TracedRight(pre + ([IfArgMeets(name, test, placeholder, thn, els)] + post))
      {
        BranchAvoids(g, pre, name, test, placeholder, thn, els, post);
        AvoidedIsTracedRight(g, pre, [IfArgMeets(name, test, placeholder, thn, els)] + post);
      }
    } else {
      var (thn, els) := if placeholder then (WritingY(), WritingX()) else (WritingX(), WritingY());
      TestingAnArgumentMisleadsTheTracer(g, pre, name, test, placeholder, post);
      StoppingAvoidsAll(g.c.template, g.p, g.args, g.TraceOf(pre), "y", post);
      assert TracedBranch(g.p, name, test, placeholder, thn, els) == WritingY().stmts;
      assert g.AvoidedAfter(pre, TracedBranch(g.p, name, test, placeholder, thn, els) + post);
      assert !g.TracedRight(pre + ([IfArgMeets(name, test, placeholder, thn, els)] + post));
    }
  }

  lemma BranchAvoids(g: Setting, pre: seq<Stmt>, name: string, test: string -> bool, placeholder: bool, thn: Body, els: Body, post: seq<Stmt>)
    requires name in g.p.bound || test(g.args(name)) == placeholder
    requires g.AvoidedAfter(pre, TracedBranch(g.p, name, test, placeholder, thn, els) + post)
    ensures g.AvoidedAfter(pre, [IfArgMeets(name, test, placeholder, thn, els)] + post)
  {
    var (tr, first) := (g.TraceOf(pre), IfArgMeets(name, test, placeholder, thn, els));
    var branch := TracedBranch(g.p, name, test, placeholder, thn, els);
    AvoidsTestsAppend(g.c.template, g.p, g.args, tr, branch, post);
    assert ([first] + post)[1..] == post;
    if Growing(tr) {
      assert TraceStmt(g.c.template, g.p, tr, first) == TraceStmts(g.c.template, g.p, tr, branch);
    }
  }

  // ---------- Texts ----------

  /** A character after which two different texts clash. */
  function Separator(x: string, y: string): char {
    if |x| < |y| then (if y[|x|] == 'a' then 'b' else 'a')
    else if |y| < |x| then (if x[|y|] == 'a' then 'b' else 'a')
    else 'a'
  }

  lemma SeparatorSeparates(x: string, y: string)
    requires x != y
    ensures Clash(x + [Separator(x, y)], y + [Separator(x, y)])
  {
    var d := Separator(x, y);
    if |x| != |y| {
      var i := if |x| < |y| then |x| else |y|;
      assert (x + [d])[i] != (y + [d])[i];
    } else {
      var i :| 0 <= i < |x| && x[i] != y[i];
      assert (x + [d])[i] != (y + [d])[i];
    }
  }

  /** A text made of an unbound argument that is not the text of its placeholder misleads the tracer; one more character shows it. */
  lemma WritingAnArgumentMisleadsTheTracer(g: Setting, pre: seq<Stmt>, name: string, f: string -> string, placeholder: string)
    requires g.SyncedAfter(pre) && name !in g.p.bound && f(g.args(name)) != placeholder
    ensures var (run, d) := (f(g.args(name)), [Separator(f(g.args(name)), placeholder)]);
            var rest := [Append(Derived(name, f, placeholder))] + [Append(Lit(d)), StopTracing()];
            && ExtractedPrefix(g.c.template, Program(g.p, pre + rest)) == Some(g.RunOf(pre).s.text + (placeholder + d))
            && g.RunOf(pre).s.text + (run + d) <= g.RunOf(pre + rest).s.text
            && !g.TracedRight(pre + rest)
  {
    var (run, d) := (f(g.args(name)), [Separator(f(g.args(name)), placeholder)]);
    var rest := [Append(Derived(name, f, placeholder))] + [Append(Lit(d)), StopTracing()];
    TextTrace(g, g.TraceOf(pre), name, f, placeholder, d);
    TextRun(g, g.RunOf(pre).s, name, f, placeholder, d);
    SeparatorSeparates(run, placeholder);
    PartingIsWrong(g, pre, rest, run + d, placeholder + d);
  }

  lemma TextTrace(g: Setting, tr: Trace, name: string, f: string -> string, placeholder: string, d: string)
    requires Growing(tr) && name !in g.p.bound
    ensures var rest := [Append(Derived(name, f, placeholder))] + [Append(Lit(d)), StopTracing()];
            var tu := TraceStmts(g.c.template, g.p, tr, rest);
            tu.status == Stopped && Prefix(tu) == Prefix(tr) + (placeholder + d)
  {
    var (first, more) := (Append(Derived(name, f, placeholder)), [Append(Lit(d)), StopTracing()]);
    var written := TraceFill(tr, placeholder);
    assert ([first] + more)[1..] == more && more + [] == more;
    assert TraceStmt(g.c.template, g.p, tr, first) == written;
    ConstPrefixSnoc(tr.nodes, ConstantText(placeholder));
    WritesThenStops(g.c.template, g.p, written, d, []);
    ConcatAssociative(Prefix(tr), placeholder, d);
  }

  lemma TextRun(g: Setting, s: Exec, name: string, f: string -> string, placeholder: string, d: string)
    requires !s.raised
    ensures var rest := [Append(Derived(name, f, placeholder))] + [Append(Lit(d)), StopTracing()];
            s.text + (f(g.args(name)) + d) <= Run(g.c, g.b, g.args, s, rest).s.text
  {
    var (run, more) := (f(g.args(name)), [Append(Lit(d)), StopTracing()]);
    WritesThenGoesOn(g.c, g.b, g.args, s, Derived(name, f, placeholder), run, more);
    var filled := Submit(g.c, g.b, s, ConstantText(run));
    assert more == [Append(Lit(d))] + [StopTracing()];
    WritesThenGoesOn(g.c, g.b, g.args, filled, Lit(d), d, [StopTracing()]);
    ConcatAssociative(s.text, run, d);
  }

  /** A text made of an argument is traced right, whatever comes after, exactly when the argument is bound or gives the text of its placeholder. */
  lemma TextIsTracedExactlyWhen(g: Setting, pre: seq<Stmt>, name: string, f: string -> string, placeholder: string)
    requires Agree(g.p, g.args) && g.SyncedAfter(pre)
    ensures var first := Append(Derived(name, f, placeholder));
            (forall post | g.AvoidedAfter(pre + [first], post) :: g.TracedRight(pre + ([first] + post)))
            <==> name in g.p.bound || f(g.args(name)) == placeholder
  {
    var first := Append(Derived(name, f, placeholder));
    TraceStmtsAppend(g.c.template, g.p, Untraced(), pre, [first]);
    assert [first][1..] == [];
    if name in g.p.bound || f(g.args(name)) == placeholder {
      forall post | g.AvoidedAfter(pre + [first], post)
        ensures g.TracedRight(pre + ([first] + post))
      {
        assert ([first] + post)[1..] == post;
        AvoidedIsTracedRight(g, pre, [first] + post);
      }
    } else {
      var d := [Separator(f(g.args(name)), placeholder)];
      var post := [Append(Lit(d)), StopTracing()];
      WritingAnArgumentMisleadsTheTracer(g, pre, name, f, placeholder);
      StoppingAvoidsAll(g.c.template, g.p, g.args, g.TraceOf(pre + [first]), d, []);
      assert post + [] == post;
      assert g.AvoidedAfter(pre + [first], post);
      assert !g.TracedRight(pre + ([first] + post));
    }
  }

  /** `str` of an unbound argument: only an argument that is the placeholder's own text is traced right. */
  lemma StrIsTracedExactlyWhen(g: Setting, pre: seq<Stmt>, name: string)
    requires Agree(g.p, g.args) && g.SyncedAfter(pre)
    ensures (forall post | g.AvoidedAfter(pre + [Append(StrOf(name))], post) :: g.TracedRight(pre + ([Append(StrOf(name))] + post)))
            <==> name in g.p.bound || g.args(name) == Placeholder(name)
  {
    var same := text => text;
    assert StrOf(name) == Derived(name, same, Placeholder(name));
    TextIsTracedExactlyWhen(g, pre, name, same, Placeholder(name));
  }

  /**
  A question with an argument written into it by `str`, as programs that use tools have it. For any argument that does not begin
  with an `A`, a number among them, the extracted prefix is never sent.
  */
  lemma QuestionIsTracedWrong(g: Setting, before: string, name: string, after: string)
    requires name !in g.p.bound && g.args(name) != "" && g.args(name)[0] != 'A'
    ensures var body := [Append(Plus(Plus(Lit(before), StrOf(name)), Lit(after)))];
            && ExtractedPrefix(g.c.template, Program(g.p, body)) == Some(before + Placeholder(name) + after)
            && g.RunOf(body).s.text == before + g.args(name) + after && !g.RunOf(body).s.raised
            && !g.TracedRight(body)
  {
    var py := Plus(Plus(Lit(before), StrOf(name)), Lit(after));
    var (traced, run) := (before + Placeholder(name) + after, before + g.args(name) + after);
    QuestionValues(g, before, name, after);
    OneTextTraced(g, py, traced);
    OneTextRun(g, py, run);
    assert traced[|before|] == Placeholder(name)[0] == 'A' && run[|before|] == g.args(name)[0];
  }

  lemma OneTextTraced(g: Setting, py: Py, text: string)
    requires TraceEval(g.p, {}, py) == Some(PStr(text))
    ensures ExtractedPrefix(g.c.template, Program(g.p, [Append(py)])) == Some(text)
  {
    var (first, written) := (Append(py), TraceFill(Untraced(), text));
    assert [first][1..] == [];
    assert TraceStmt(g.c.template, g.p, Untraced(), first) == written;
    assert TraceStmts(g.c.template, g.p, Untraced(), [first]) == written;
    ConstPrefixSnoc([], ConstantText(text));
    assert [] + [ConstantText(text)] == written.nodes;
    ExtractedIsPrefix(g, [first]);
    ConcatAssociative(text, "", "");
  }

  lemma OneTextRun(g: Setting, py: Py, text: string)
    requires Eval(g.args, map[], py) == Some(PStr(text))
    ensures g.RunOf([Append(py)]).s.text == text && !g.RunOf([Append(py)]).s.raised
  {
    WritesThenGoesOn(g.c, g.b, g.args, g.Start(), py, text, []);
    assert [Append(py)] + [] == [Append(py)];
    ConcatAssociative(text, "", "");
  }

  lemma QuestionValues(g: Setting, before: string, name: string, after: string)
    requires name !in g.p.bound
    ensures var py := Plus(Plus(Lit(before), StrOf(name)), Lit(after));
            && TraceEval(g.p, {}, py) == Some(PStr(before + Placeholder(name) + after))
            && Eval(g.args, map[], py) == Some(PStr(before + g.args(name) + after))
  {
    var (left, str) := (Plus(Lit(before), StrOf(name)), StrOf(name));
    assert TraceEval(g.p, {}, str) == Some(PStr(Placeholder(name)));
    assert TraceEval(g.p, {}, left) == Some(PStr(before + Placeholder(name)));
    assert Eval(g.args, map[], str) == Some(PStr(g.args(name)));
    assert Eval(g.args, map[], left) == Some(PStr(before + g.args(name)));
  }
}
