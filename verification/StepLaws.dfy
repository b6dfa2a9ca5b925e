/** What single steps of a program amount to: when they fail, and what later steps read of them. */
module StepLaws {
  import opened Options
  import opened Text
  import opened ChatTemplates
  import opened Ir
  import opened Executor
  import opened Programs
  import opened PromptLaws

  // ---------- When an expression fails ----------

  /** Exactly when executing an expression that is not a list raises an exception. */
  lemma FailsExactlyWhen(c: Config, b: Backend, s: Exec, e: Expr)
    requires !s.raised && !e.ExprList?
    ensures Execute(c, b, s, e).raised <==>
            match e
            case Gen(name, params) =>
              if c.stream then s.specTokens.Some? || name !in s.events
              else name !in s.events || (s.specTokens.None? && b.generate(Call(s.sid, |s.calls|, s.text, ForGen(params))) == Several([]))
            case Select(name, _) => name.Some? && name.value !in s.events
            case RoleBegin(_) => s.curRole.Some?
            case VarScopeEnd(name) => name !in s.variables || !s.variables[name].Pos? || name !in s.events
            case ConcateAndAppend(kids) => c.kvJoin && exists kid :: kid in kids && kid.forkPos != Some(|s.text|)
            case Argument(_) => true
            case Variable(_) => true
            case _ => false
  {
    match e
    case Gen(name, params) => GenFails(c, b, s, name, params);
    case RoleBegin(role) => assert !Ready(c, s, role).raised;
    case ConcateAndAppend(kids) => KvJoinRaises(s, kids, |s.text|);
    case _ =>
  }

  lemma GenFails(c: Config, b: Backend, s: Exec, name: string, params: Params)
    requires !s.raised
    ensures ExecuteGen(c, b, s, name, params).raised <==>
            if c.stream then s.specTokens.Some? || name !in s.events
            else name !in s.events || (s.specTokens.None? && b.generate(Call(s.sid, |s.calls|, s.text, ForGen(params))) == Several([]))
  {
    if !c.stream && s.specTokens.Some? {
      var after := SpecGen(b, s, params).1;
      assert after.events == s.events && !after.raised;
    }
  }

  // ---------- What is read back ----------

  /** The text a direct generation is answered with: the only completion, the first of several, or all chunks. */
  function Answer(c: Config, b: Backend, s: Exec, params: Params): Option<string> {
    if c.stream then Some(Join(b.generateStream(Call(s.sid, |s.calls|, s.text, ForStream(params)))))
    else
      match b.generate(Call(s.sid, |s.calls|, s.text, ForGen(params)))
      case One(comp) => Some(comp)
      case Several(comps) => if comps == [] then None else Some(comps[0])
  }

  lemma GenerateAnswers(c: Config, b: Backend, args: Arguments, s: Exec, name: string, params: Params)
    requires !s.raised && s.specTokens.None? && Answer(c, b, s, params).Some?
    ensures var (ran, v) := (RunStmt(c, b, args, s, Append(Node(Gen(name, params)))), Answer(c, b, s, params).value);
            && !ran.aborted && !ran.s.raised && ran.s.text == s.text + v && ran.s.messages == s.messages
            && name in ran.s.events && ran.s.events[name] && name in ran.s.variables
            && (c.stream || b.generate(Call(s.sid, |s.calls|, s.text, ForGen(params))).One? ==> ran.s.variables == s.variables[name := Str(v)])
  {
    var e := Gen(name, params);
    assert Eval(args, s.variables, Node(e)) == Some(PNode(e)) && Announced(e) == {name};
  }

  /** Several completions: the first goes into the text, and the variable lists all of them in order. */
  lemma SeveralAreListed(c: Config, b: Backend, args: Arguments, s: Exec, name: string, params: Params, comps: seq<string>)
    requires !s.raised && s.specTokens.None? && !c.stream && comps != []
    requires b.generate(Call(s.sid, |s.calls|, s.text, ForGen(params))) == Several(comps)
    ensures var t := RunStmt(c, b, args, s, Append(Node(Gen(name, params)))).s;
            && t.text == s.text + comps[0] && name in t.variables && t.variables[name].Many? && |t.variables[name].items| == |comps|
            && forall i :: 0 <= i < |comps| ==> t.variables[name].items[i] == Str(comps[i])
  {
    var e := Gen(name, params);
    assert Eval(args, s.variables, Node(e)) == Some(PNode(e)) && Announced(e) == {name};
  }

  /** A program that generates and then appends what it reads of the variable has the answer in its text twice. */
  lemma GenerateAndReadBack(c: Config, b: Backend, args: Arguments, s: Exec, name: string, params: Params)
    requires !s.raised && s.specTokens.None? && Answer(c, b, s, params).Some?
    requires c.stream || b.generate(Call(s.sid, |s.calls|, s.text, ForGen(params))).One?
    ensures var (ran, v) := (Run(c, b, args, s, [Append(Node(Gen(name, params)))] + [Append(Read(name))]), Answer(c, b, s, params).value);
            !ran.aborted && !ran.s.raised && ran.s.text == s.text + v + v
  {
    var (first, second) := (Append(Node(Gen(name, params))), Append(Read(name)));
    GenerateAnswers(c, b, args, s, name, params);
    TwoStatements(c, b, args, s, first, second);
  }

  lemma TwoStatements(c: Config, b: Backend, args: Arguments, s: Exec, first: Stmt, second: Stmt)
    ensures var ran := RunStmt(c, b, args, s, first);
            Run(c, b, args, s, [first] + [second]) == if ran.aborted then ran else RunStmt(c, b, args, ran.s, second)
  {
    assert ([first] + [second])[1..] == [second];
    OneStatement(c, b, args, RunStmt(c, b, args, s, first).s, second);
  }

  lemma OneStatement(c: Config, b: Backend, args: Arguments, s: Exec, stmt: Stmt)
    ensures Run(c, b, args, s, [stmt]) == RunStmt(c, b, args, s, stmt)
  {
    var ran := RunStmt(c, b, args, s, stmt);
    assert [stmt][1..] == [];
    assert ran.aborted || Run(c, b, args, ran.s, []) == ran;
  }

  lemma SelectDecides(c: Config, b: Backend, args: Arguments, s: Exec, name: string, choices: seq<string>)
    requires !s.raised
    ensures var ran := RunStmt(c, b, args, s, Append(Node(Select(Some(name), choices))));
            var decision := b.select(Call(s.sid, |s.calls|, s.text, ForSelect(choices)));
            && !ran.aborted && !ran.s.raised && ran.s.text == s.text + decision
            && ran.s.variables == s.variables[name := Str(decision)] && name in ran.s.events && ran.s.events[name]
  {
    var e := Select(Some(name), choices);
    assert Eval(args, s.variables, Node(e)) == Some(PNode(e)) && Announced(e) == {name};
  }

  /** A program that selects and then compares the variable takes the branch of the decision. */
  lemma SelectAndBranch(c: Config, b: Backend, args: Arguments, s: Exec, name: string, choices: seq<string>, lit: string, thn: Body, els: Body)
    requires !s.raised
    ensures var chosen := RunStmt(c, b, args, s, Append(Node(Select(Some(name), choices)))).s;
            Run(c, b, args, s, [Append(Node(Select(Some(name), choices)))] + [IfVarIs(name, lit, thn, els)]) ==
            Run(c, b, args, chosen, if b.select(Call(s.sid, |s.calls|, s.text, ForSelect(choices))) == lit then thn.stmts else els.stmts)
  {
    SelectDecides(c, b, args, s, name, choices);
    TwoStatements(c, b, args, s, Append(Node(Select(Some(name), choices))), IfVarIs(name, lit, thn, els));
  }

  /** Branches on an argument: what is written is the text of the branch that its value calls for. */
  lemma ArgumentBranches(c: Config, b: Backend, args: Arguments, s: Exec, name: string, test: string -> bool, placeholder: bool, x: string, y: string)
    requires !s.raised
    ensures var (thn, els) := (Body([Append(Lit(x))]), Body([Append(Lit(y))]));
            && RunStmt(c, b, args, s, IfArg(name, thn, els)).s.text == s.text + (if args(name) == "" then y else x)
            && RunStmt(c, b, args, s, IfArgMeets(name, test, placeholder, thn, els)).s.text == s.text + (if test(args(name)) then x else y)
  {
    OneText(c, b, args, s, x);
    OneText(c, b, args, s, y);
  }

  lemma OneText(c: Config, b: Backend, args: Arguments, s: Exec, text: string)
    requires !s.raised
    ensures Run(c, b, args, s, [Append(Lit(text))]).s.text == s.text + text
  {
    assert [Append(Lit(text))][1..] == [];
    assert Eval(args, s.variables, Lit(text)) == Some(PStr(text));
  }

  // ---------- Images ----------

  /** An image in a block: its token goes into the text and the content, its path into the message and the list of all images. */
  lemma ImageBlockWrites(c: Config, b: Backend, s: Exec, role: string, path: string, text: string)
    requires AtRest(s)
    ensures var (t, before) := (c.template, s.messages + InsertedMessages(c.template, s, role));
            var done := Execute(c, b, s, ExprList([RoleBegin(role)] + [Image(path), ConstantText(text)] + [RoleEnd(role)]));
            && !done.raised && done.curImages == [] && done.images == s.images + [path]
            && done.messages == before + [Message(role, Some(LStrip(t.imageToken + text)), [path])]
            && done.text == s.text + InsertedText(t, s, role) + OpeningAt(t, |before|, role) + (t.imageToken + text) + Closing(t, role)
  {
    var (begun, body) := (Execute(c, b, s, RoleBegin(role)), [Image(path), ConstantText(text)]);
    RoleBeginWrites(c, b, s, role);
    RoleBeginKeepsImages(c, b, s, role);
    ImageThenText(c, b, begun, path, text);
    ExecuteAllAround(c, b, s, RoleBegin(role), body, RoleEnd(role));
    ExecuteItems(c, b, s, ExprList([RoleBegin(role)] + body + [RoleEnd(role)]));
    assert forall m :: m in InsertedMessages(c.template, s, role) ==> m.content.Some?;
    RoleEndWrites(c, b, ExecuteAll(c, b, begun, body), role, c.template.imageToken + text);
  }

  lemma ImageThenText(c: Config, b: Backend, s: Exec, path: string, text: string)
    requires !s.raised && s.curImages == []
    ensures var t := ExecuteAll(c, b, s, [Image(path), ConstantText(text)]);
            && !t.raised && t.text == s.text + (c.template.imageToken + text) && t.messages == s.messages && t.beginPos == s.beginPos
            && t.images == s.images + [path] && t.curImages == [path]
  {
    var shown := Execute(c, b, s, Image(path));
    assert [Image(path)] + [ConstantText(text)] == [Image(path), ConstantText(text)];
    ExecuteAllCons(c, b, s, Image(path), [ConstantText(text)]);
    assert [ConstantText(text)][1..] == [];
    assert ExecuteAll(c, b, shown, [ConstantText(text)]) == Fill(shown, text);
    ConcatAssociative(s.text, c.template.imageToken, text);
    ConcatAssociative([path], [], []);
  }

  lemma RoleBeginKeepsImages(c: Config, b: Backend, s: Exec, role: string)
    requires !s.raised
    ensures Execute(c, b, s, RoleBegin(role)).images == s.images
  {
    assert Ready(c, s, role).images == s.images;
  }
}
