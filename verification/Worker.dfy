/**
The background worker of an executor: a queue with a count of unfinished items, and the worker's loop,
which executes one expression as a list of small steps that other threads can see between.
*/
module WorkerSteps {
  import opened Options
  import opened Text
  import opened Ir
  import opened Executor

  /** The worker's steps. Of an expression that is one step, other threads may see the text half written, but no variable or event. */
  datatype Instr =
    | Whole(e: Expr)                                   // any other expression
    | AskGen(name: string, params: Params)
    | AskSelect(decided: Option<string>, choices: seq<string>)
    | Write(text: string)
    | Store(name: string, value: Value)
    | Extend(name: string, chunk: string)
    | SetFlag(name: string)
    | CloseScope(name: string)

  function Compile(e: Expr): seq<Instr>
    decreases e, 1
  {
    match e
    case ExprList(items) => CompileAll(items)
    case Gen(name, params) => [AskGen(name, params)]
    case Select(name, choices) => [AskSelect(name, choices)]
    case VarScopeEnd(name) => [CloseScope(name)]
    case _ => [Whole(e)]
  }

  function CompileAll(es: seq<Expr>): seq<Instr>
    decreases es, 0
  {
    if es == [] then [] else Compile(es[0]) + CompileAll(es[1..])
  }

  function Chunks(name: string, chunks: seq<string>): seq<Instr> {
    if chunks == [] then [] else [Write(chunks[0]), Extend(name, chunks[0])] + Chunks(name, chunks[1..])
  }

  /** A finished generation: text, then variable, then event. */
  function Publishing(name: string, text: string, value: Value): seq<Instr> {
    [Write(text), Store(name, value), SetFlag(name)]
  }

  /** One step, and the steps that it turns out to need before the rest. */
  function Step(c: Config, b: Backend, s: Exec, i: Instr): (Exec, seq<Instr>) {
    match i
    case Whole(e) => (Execute(c, b, s, e), [])
    case AskGen(name, params) =>
      if c.stream then
        if s.specTokens.Some? then (Raise(s), [])
        else
          var call := Ask(s, ForStream(params));
          (s.(calls := s.calls + [call]), [Store(name, Str(""))] + Chunks(name, b.generateStream(call)) + [SetFlag(name)])
      else if s.specTokens.None? then
        var call := Ask(s, ForGen(params));
        var asked := s.(calls := s.calls + [call]);
        match b.generate(call)
        case One(comp) => (asked, Publishing(name, comp, Str(comp)))
        case Several(comps) =>
          if comps == [] then (Raise(asked), []) else (asked, Publishing(name, comps[0], Many(Strs(comps))))
      else
        var (comp, after) := SpecGen(b, s, params);
        (after, Publishing(name, comp, Str(comp)))
    case AskSelect(name, choices) =>
      var call := Ask(s, ForSelect(choices));
      var asked := s.(calls := s.calls + [call]);
      var decision := b.select(call);
      (asked, if name.None? then [Write(decision)]
              else [Store(name.value, Str(decision)), SetFlag(name.value), Write(decision)])
    case Write(text) => (s.(text := s.text + text), [])
    case Store(name, value) => (s.(variables := s.variables[name := value]), [])
    case Extend(name, chunk) =>
      if name in s.variables && s.variables[name].Str?
      then (s.(variables := s.variables[name := Str(s.variables[name].text + chunk)]), [])
      else (Raise(s), [])
    case SetFlag(name) => (SetEvent(s, name), [])
    case CloseScope(name) =>
      if name !in s.variables || !s.variables[name].Pos? then (Raise(s), [])
      else (s.(variables := s.variables[name := Str(Drop(s.text, s.variables[name].pos))]), [SetFlag(name)])
  }

  // ---------- The small steps of an expression add up to executing it ----------

  predicate Expands(i: Instr) { i.AskGen? || i.AskSelect? || i.CloseScope? }

  function Expansions(l: seq<Instr>): nat {
    if l == [] then 0 else (if Expands(l[0]) then 1 else 0) + Expansions(l[1..])
  }

  lemma {:induction false} ExpansionsAppend(xs: seq<Instr>, ys: seq<Instr>)
    requires forall i :: i in xs ==> !Expands(i)
    ensures Expansions(xs + ys) == Expansions(ys)
  {
    if xs == [] {
      assert xs + ys == ys;
    } else {
      assert (xs + ys)[1..] == xs[1..] + ys;
      ExpansionsAppend(xs[1..], ys);
    }
  }

  lemma {:induction false} ChunksDoNotExpand(name: string, chunks: seq<string>)
    ensures forall i :: i in Chunks(name, chunks) ==> !Expands(i)
  {
    if chunks != [] {
      ChunksDoNotExpand(name, chunks[1..]);
    }
  }

  lemma MoreDoesNotExpand(c: Config, b: Backend, s: Exec, i: Instr)
    ensures forall j :: j in Step(c, b, s, i).1 ==> !Expands(j)
    ensures !Expands(i) ==> Step(c, b, s, i).1 == []
  {
    if i.AskGen? && c.stream {
      ChunksDoNotExpand(i.name, b.generateStream(Ask(s, ForStream(i.params))));
    }
  }

  /** All steps of a list, up to the first exception. */
  function Steps(c: Config, b: Backend, s: Exec, l: seq<Instr>): Exec
    decreases Expansions(l), |l|
  {
    if l == [] || s.raised then s
    else
      var (t, more) := Step(c, b, s, l[0]);
      MoreDoesNotExpand(c, b, s, l[0]);
      ExpansionsAppend(more, l[1..]);
      Steps(c, b, t, more + l[1..])
  }

  lemma {:induction false} StepsAppend(c: Config, b: Backend, s: Exec, xs: seq<Instr>, ys: seq<Instr>)
    ensures Steps(c, b, s, xs + ys) == Steps(c, b, Steps(c, b, s, xs), ys)
    decreases Expansions(xs), |xs|
  {
    if xs == [] {
      assert xs + ys == ys;
    } else if !s.raised {
      var (t, more) := Step(c, b, s, xs[0]);
      MoreDoesNotExpand(c, b, s, xs[0]);
      ExpansionsAppend(more, xs[1..]);
      assert (xs + ys)[1..] == xs[1..] + ys;
      ConcatAssociative(more, xs[1..], ys);
      StepsAppend(c, b, t, more + xs[1..], ys);
    }
  }

  lemma StepsOne(c: Config, b: Backend, s: Exec, i: Instr)
    requires !s.raised
    ensures Steps(c, b, s, [i]) == Steps(c, b, Step(c, b, s, i).0, Step(c, b, s, i).1)
  {
    ConcatAssociative(Step(c, b, s, i).1, [], []);
    assert [i][1..] == [];
  }

  lemma StepsSimple(c: Config, b: Backend, s: Exec, i: Instr, rest: seq<Instr>)
    requires !s.raised && !Expands(i)
    ensures Steps(c, b, s, [i] + rest) == Steps(c, b, Step(c, b, s, i).0, rest)
  {
    MoreDoesNotExpand(c, b, s, i);
    assert ([i] + rest)[1..] == rest;
    ConcatAssociative(rest, [], []);
  }

  lemma PublishingPublishes(c: Config, b: Backend, s: Exec, name: string, text: string, value: Value)
    requires !s.raised
    ensures Steps(c, b, s, Publishing(name, text, value)) == Publish(s, name, text, value)
  {
    var (s1, i2, i3) := (s.(text := s.text + text), Store(name, value), SetFlag(name));
    assert Publishing(name, text, value) == [Write(text)] + ([i2] + [i3]);
    StepsSimple(c, b, s, Write(text), [i2] + [i3]);
    StepsSimple(c, b, s1, i2, [i3]);
    StepsOne(c, b, Step(c, b, s1, i2).0, i3);
  }

  lemma {:induction false} ChunksWrite(c: Config, b: Backend, s: Exec, name: string, chunks: seq<string>)
    requires !s.raised && name in s.variables && s.variables[name].Str?
    ensures Steps(c, b, s, Chunks(name, chunks)) ==
            s.(text := s.text + Join(chunks), variables := s.variables[name := Str(s.variables[name].text + Join(chunks))])
    decreases |chunks|
  {
    var was := s.variables[name].text;
    if chunks == [] {
      ConcatAssociative(s.text, "", "");
      ConcatAssociative(was, "", "");
      assert s.variables == s.variables[name := Str(was)];
    } else {
      var (i1, i2, rest) := (Write(chunks[0]), Extend(name, chunks[0]), Chunks(name, chunks[1..]));
      assert Chunks(name, chunks) == [i1] + ([i2] + rest);
      var s1 := Step(c, b, s, i1).0;
      var s2 := Step(c, b, s1, i2).0;
      StepsSimple(c, b, s, i1, [i2] + rest);
      StepsSimple(c, b, s1, i2, rest);
      ChunksWrite(c, b, s2, name, chunks[1..]);
      ConcatAssociative(s.text, chunks[0], Join(chunks[1..]));
      ConcatAssociative(was, chunks[0], Join(chunks[1..]));
    }
  }

  lemma StreamSteps(c: Config, b: Backend, s: Exec, name: string, params: Params)
    requires !s.raised && c.stream && s.specTokens.None? && name in s.events
    ensures Steps(c, b, s, [AskGen(name, params)]) == ExecuteGen(c, b, s, name, params)
  {
    var (asked, more) := Step(c, b, s, AskGen(name, params));
    var chunks := b.generateStream(Ask(s, ForStream(params)));
    var stored := asked.(variables := s.variables[name := Str("")]);
    StepsOne(c, b, s, AskGen(name, params));
    ConcatAssociative([Store(name, Str(""))], Chunks(name, chunks), [SetFlag(name)]);
    StepsSimple(c, b, asked, Store(name, Str("")), Chunks(name, chunks) + [SetFlag(name)]);
    StepsAppend(c, b, stored, Chunks(name, chunks), [SetFlag(name)]);
    ChunksWrite(c, b, stored, name, chunks);
    ConcatAssociative(Join(chunks), "", "");
    StepsOne(c, b, Steps(c, b, stored, Chunks(name, chunks)), SetFlag(name));
  }

  lemma GenSteps(c: Config, b: Backend, s: Exec, name: string, params: Params)
    requires !s.raised && name in s.events
    ensures Steps(c, b, s, [AskGen(name, params)]) == ExecuteGen(c, b, s, name, params)
  {
    if c.stream && s.specTokens.None? {
      StreamSteps(c, b, s, name, params);
    } else {
      var (asked, more) := Step(c, b, s, AskGen(name, params));
      StepsOne(c, b, s, AskGen(name, params));
      if more != [] {
        PublishingPublishes(c, b, asked, name, more[0].text, more[1].value);
      }
    }
  }

  lemma SelectSteps(c: Config, b: Backend, s: Exec, name: Option<string>, choices: seq<string>)
    requires !s.raised
    ensures Steps(c, b, s, [AskSelect(name, choices)]) == ExecuteSelect(b, s, name, choices)
  {
    var (asked, more) := Step(c, b, s, AskSelect(name, choices));
    var d := b.select(Ask(s, ForSelect(choices)));
    StepsOne(c, b, s, AskSelect(name, choices));
    if name.None? {
      StepsOne(c, b, asked, Write(d));
    } else {
      var (i1, i2, i3) := (Store(name.value, Str(d)), SetFlag(name.value), Write(d));
      assert more == [i1] + ([i2] + [i3]);
      StepsSimple(c, b, asked, i1, [i2] + [i3]);
      var stored := Step(c, b, asked, i1).0;
      StepsSimple(c, b, stored, i2, [i3]);
      if name.value in s.events {
        StepsOne(c, b, SetEvent(stored, name.value), i3);
      }
    }
  }

  lemma ScopeSteps(c: Config, b: Backend, s: Exec, name: string)
    requires !s.raised
    ensures Steps(c, b, s, [CloseScope(name)]) == ExecuteVarScopeEnd(s, name)
  {
    var (t, more) := Step(c, b, s, CloseScope(name));
    StepsOne(c, b, s, CloseScope(name));
    if more != [] {
      StepsOne(c, b, t, SetFlag(name));
    }
  }

  lemma {:induction false} KvKeepsEvents(s: Exec, kids: seq<Kid>, origin: nat)
    ensures ConcatenateKv(s, kids, origin).events == s.events
    decreases |kids|
  {
    if kids != [] && kids[0].forkPos == Some(origin) {
      KvKeepsEvents(s.(text := s.text + Addition(kids[0])), kids[1..], origin);
    }
  }

  lemma GenKeepsEventNames(c: Config, b: Backend, s: Exec, name: string, params: Params)
    ensures ExecuteGen(c, b, s, name, params).events.Keys == s.events.Keys
  {
    if !c.stream && s.specTokens.Some? {
      var (comp, after) := SpecGen(b, s, params);
      assert after.events == s.events;
      assert Publish(after, name, comp, Str(comp)).events.Keys == after.events.Keys;
    }
  }

  lemma {:induction false} EventNamesKept(c: Config, b: Backend, s: Exec, e: Expr)
    ensures Execute(c, b, s, e).events.Keys == s.events.Keys
    decreases e, 1
  {
    match e
    case ExprList(items) => AllEventNamesKept(c, b, s, items);
    case ConcateAndAppend(kids) => KvKeepsEvents(s, kids, |s.text|);
    case Gen(name, params) => GenKeepsEventNames(c, b, s, name, params);
    case RoleBegin(role) => assert Ready(c, s, role).events == s.events;
    case _ =>
  }

  lemma {:induction false} AllEventNamesKept(c: Config, b: Backend, s: Exec, es: seq<Expr>)
    ensures ExecuteAll(c, b, s, es).events.Keys == s.events.Keys
    decreases es, 0
  {
    if es != [] {
      EventNamesKept(c, b, s, es[0]);
      AllEventNamesKept(c, b, Execute(c, b, s, es[0]), es[1..]);
    }
  }

  /** The worker's small steps for an announced expression compute what `Execute` computes. */
  lemma {:induction false} SmallStepsExecute(c: Config, b: Backend, s: Exec, e: Expr)
    requires Announced(e) <= s.events.Keys
    ensures Steps(c, b, s, Compile(e)) == Execute(c, b, s, e)
    decreases e, 1
  {
    if !s.raised {
      match e
      case ExprList(items) => SmallStepsExecuteAll(c, b, s, items);
      case Gen(name, params) => GenSteps(c, b, s, name, params);
      case Select(name, choices) => SelectSteps(c, b, s, name, choices);
      case VarScopeEnd(name) => ScopeSteps(c, b, s, name);
      case _ => StepsOne(c, b, s, Whole(e));
    }
  }

  lemma {:induction false} SmallStepsExecuteAll(c: Config, b: Backend, s: Exec, es: seq<Expr>)
    requires AnnouncedAll(es) <= s.events.Keys
    ensures Steps(c, b, s, CompileAll(es)) == ExecuteAll(c, b, s, es)
    decreases es, 0
  {
    if es != [] {
      var next := Execute(c, b, s, es[0]);
      SmallStepsExecute(c, b, s, es[0]);
      StepsAppend(c, b, s, Compile(es[0]), CompileAll(es[1..]));
      EventNamesKept(c, b, s, es[0]);
      SmallStepsExecuteAll(c, b, next, es[1..]);
    }
  }
}
