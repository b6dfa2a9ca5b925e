/** The executor object: its methods update its fields, each as the functions of module Executor say. */
module StreamExecutors {
  import opened Options
  import opened Text
  import opened ChatTemplates
  import opened Ir
  import opened Executor

  class StreamExecutor {
    const config: Config
    const backend: Backend
    const sid: seq<nat>
    const specTokens: Option<nat>

    var text: string
    var messages: seq<Message>
    var curRole: Option<string>
    var beginPos: Option<nat>
    var variables: map<string, Value>
    var events: map<string, bool>
    var images: seq<string>
    var curImages: seq<string>
    var forkPos: Option<nat>
    var speculated: string
    var calls: seq<Call>   // the requests made so far
    var forks: nat
    var raised: bool       // an exception has left `Execute`

    ghost function View(): Exec
      reads this
    {
      Exec(sid, text, messages, curRole, beginPos, variables, events, images, curImages, forkPos,
           specTokens, speculated, calls, forks, raised)
    }

    constructor (config: Config, backend: Backend, sid: seq<nat>, specTokens: Option<nat>)
      ensures View() == Fresh(sid, specTokens)
      ensures text == "" && messages == [] && curRole == None && variables == map[] && events == map[] && speculated == "" && !raised
      ensures this.config == config && this.backend == backend
    {
      this.config, this.backend, this.sid, this.specTokens := config, backend, sid, specTokens;
      text, messages, curRole, beginPos := "", [], None, None;
      variables, events, images, curImages := map[], map[], [], [];
      forkPos, speculated, calls, forks, raised := None, "", [], 0, false;
    }

    /** A copy of the parent; surplus, events and open images stay behind. */
    constructor ForkOf(parent: StreamExecutor, i: nat)
      ensures View() == ForkChild(parent.View(), i)
      ensures config == parent.config && backend == parent.backend
    {
      config, backend, sid, specTokens := parent.config, parent.backend, parent.sid + [parent.forks, i], None;
      text, messages, curRole, beginPos := parent.text, parent.messages, parent.curRole, parent.beginPos;
      variables, events, images, curImages := parent.variables, map[], parent.images, [];
      forkPos, speculated, calls, forks, raised := Some(|parent.text|), "", [], 0, false;
    }

    /** Everything but surplus, events, open images and the speculation setting comes from the parent. */
    ghost predicate Inherits(parent: Exec)
      reads this
    {
      && text == parent.text && messages == parent.messages && variables == parent.variables && images == parent.images
      && curRole == parent.curRole && beginPos == parent.beginPos && forkPos == Some(|parent.text|)
      && events == map[] && curImages == [] && speculated == "" && specTokens == None && calls == [] && !raised
    }

    method Submit(e: Expr)
      modifies this
      ensures View() == Executor.Submit(config, backend, old(View()), e)
    {
      var names := Announced(e);
      events := events + map name | name in names :: false;
      Execute(e);
    }

    method ExecuteFill(value: string)
      modifies this
      ensures View() == Fill(old(View()), value)
    {
      if value <= speculated {
        speculated := speculated[|value|..];
      } else {
        speculated := "";
      }
      text := text + value;
    }

    method Set(name: string)
      modifies this
      ensures View() == SetEvent(old(View()), name)
    {
      if name in events {
        events := events[name := true];
      } else {
        raised := true;
      }
    }

    /** The earliest position of any stop string in the surplus, or -1. */
    method FindStop(stops: seq<string>) returns (pos: int)
      ensures pos == FirstStop(speculated, stops)
    {
      pos := -1;
      for i := 0 to |stops|
        invariant pos == FirstStop(speculated, stops[..i])
      {
        assert stops[..i + 1][..i] == stops[..i];
        var stopPos := Find(speculated, stops[i]);
        if stopPos != -1 && (pos == -1 || stopPos < pos) {
          pos := stopPos;
        }
      }
      assert stops[..|stops|] == stops;
    }

    method Regen(atLeast: nat)
      modifies this
      ensures var s := old(View());
              var call := Ask(s, ForSpeculation(atLeast));
              View() == s.(speculated := backend.speculate(call), calls := s.calls + [call])
    {
      var call := Call(sid, |calls|, text, ForSpeculation(atLeast));
      calls := calls + [call];
      speculated := backend.speculate(call);
    }

    method RunSpecGen(params: Params) returns (comp: string)
      requires specTokens.Some?
      modifies this
      ensures (comp, View()) == SpecGen(backend, old(View()), params)
    {
      var limit := params.maxNewTokens;
      var atLeast := if params.maxNewTokens < specTokens.value then specTokens.value else params.maxNewTokens;
      if params.stop.NoStop? {
        if |speculated| < params.maxNewTokens {
          Regen(atLeast);
        }
      } else {
        if speculated == "" {
          Regen(atLeast);
          limit := atLeast;
        }
        var stopPos := FindStop(StopList(params.stop));
        if stopPos != -1 {
          limit := stopPos;
        }
      }
      comp := Take(speculated, limit);
      speculated := Drop(speculated, limit);
    }

    method StoreCompletion(name: string, addition: string, value: Value)
      modifies this
      ensures View() == Publish(old(View()), name, addition, value)
    {
      text := text + addition;
      variables := variables[name := value];
      Set(name);
    }

    /** The streaming branch: text and variable grow chunk by chunk. */
    method StreamGen(name: string, params: Params)
      requires config.stream
      modifies this
      ensures View() == Executor.ExecuteGen(config, backend, old(View()), name, params)
    {
      if specTokens.Some? {
        raised := true;
        return;
      }
      var call := Call(sid, |calls|, text, ForStream(params));
      calls := calls + [call];
      variables := variables[name := Str("")];
      if name !in events {
        raised := true;
        return;
      }
      StreamChunks(name, backend.generateStream(call));
      Set(name);
    }

    /** Text and variable grow together, one chunk at a time. */
    method StreamChunks(name: string, chunks: seq<string>)
      requires name in variables && variables[name] == Str("")
      modifies this
      ensures var s := old(View());
              View() == s.(text := s.text + Join(chunks), variables := s.variables[name := Str(Join(chunks))])
    {
      ConcatAssociative(text, "", "");
      assert variables == variables[name := Str("")];
      for i := 0 to |chunks|
        invariant View() == old(View()).(text := old(text) + Join(chunks[..i]),
                                         variables := old(variables)[name := Str(Join(chunks[..i]))])
      {
        JoinSnoc(chunks, i);
        ConcatAssociative(old(text), Join(chunks[..i]), chunks[i]);
        text := text + chunks[i];
        variables := variables[name := Str(variables[name].text + chunks[i])];
      }
      assert chunks[..|chunks|] == chunks;
    }

    method ExecuteGen(name: string, params: Params)
      modifies this
      ensures View() == Executor.ExecuteGen(config, backend, old(View()), name, params)
    {
      if config.stream {
        StreamGen(name, params);
      } else if specTokens.None? {
        var call := Call(sid, |calls|, text, ForGen(params));
        calls := calls + [call];
        match backend.generate(call)
        case One(comp) => StoreCompletion(name, comp, Str(comp));
        case Several(comps) =>
          if comps == [] {
            raised := true;
          } else {
            StoreCompletion(name, comps[0], Many(Strs(comps)));
          }
      } else {
        var comp := RunSpecGen(params);
        StoreCompletion(name, comp, Str(comp));
      }
    }

    method ExecuteSelect(name: Option<string>, choices: seq<string>)
      modifies this
      ensures View() == Executor.ExecuteSelect(backend, old(View()), name, choices)
    {
      var call := Call(sid, |calls|, text, ForSelect(choices));
      calls := calls + [call];
      var decision := backend.select(call);
      if name.Some? {
        variables := variables[name.value := Str(decision)];
        Set(name.value);
        if raised {
          return;
        }
      }
      text := text + decision;
    }

    method EnterRole(role: string)
      modifies this
      ensures View() == Executor.EnterRole(config, old(View()), role)
    {
      curRole := Some(role);
      ExecuteFill(config.template.PrefixAndSuffix(role, messages).0);
      beginPos := Some(|text|);
    }

    method ExecuteRoleBegin(role: string)
      modifies this
      ensures View() == Executor.ExecuteRoleBegin(config, old(View()), role)
      decreases role != "system"
    {
      if curRole.Some? {
        raised := true;
        return;
      }
      var default := config.template.defaultSystem;
      if messages == [] && role != "system" && default.Some? && default.value != "" {
        EnterRole("system");
        ExecuteFill(default.value);
        ExecuteRoleEnd("system");
      }
      EnterRole(role);
    }

    method ExecuteRoleEnd(role: string)
      modifies this
      ensures View() == Executor.ExecuteRoleEnd(config, old(View()), role)
    {
      curRole := None;
      var newText := LStrip(Drop(text, if beginPos.None? then 0 else beginPos.value));
      ExecuteFill(config.template.PrefixAndSuffix(role, messages).1);
      messages := messages + [Message(role, Some(newText), curImages)];
      curImages := [];
    }

    method ExecuteVarScopeEnd(name: string)
      modifies this
      ensures View() == Executor.ExecuteVarScopeEnd(old(View()), name)
    {
      if name !in variables || !variables[name].Pos? {
        raised := true;
        return;
      }
      variables := variables[name := Str(Drop(text, variables[name].pos))];
      Set(name);
    }

    method ConcatenateText(kids: seq<Kid>)
      modifies this
      ensures View() == Fill(old(View()), Additions(kids))
    {
      var newText := "";
      for i := 0 to |kids|
        invariant newText == Additions(kids[..i]) && View() == old(View())
      {
        AdditionsSnoc(kids[..i], kids[i]);
        TakeSnoc(kids, i);
        newText := newText + Addition(kids[i]);
      }
      assert kids[..|kids|] == kids;
      ExecuteFill(newText);
    }

    method ConcatenateKvCache(kids: seq<Kid>)
      requires !raised
      modifies this
      ensures View() == ConcatenateKv(old(View()), kids, |old(text)|)
    {
      var selfLen := |text|;
      var i := 0;
      while i < |kids|
        invariant 0 <= i <= |kids|
        invariant ConcatenateKv(View(), kids[i..], selfLen) == ConcatenateKv(old(View()), kids, selfLen)
      {
        if kids[i].forkPos != Some(selfLen) {
          raised := true;
          return;
        }
        assert kids[i..][1..] == kids[i + 1..];
        text := text + Addition(kids[i]);
        i := i + 1;
      }
    }

    method ExecuteConcatenate(kids: seq<Kid>)
      requires !raised
      modifies this
      ensures View() == if config.kvJoin then ConcatenateKv(old(View()), kids, |old(text)|)
                        else Fill(old(View()), Additions(kids))
    {
      if config.kvJoin {
        ConcatenateKvCache(kids);
      } else {
        ConcatenateText(kids);
      }
    }

    method ExecuteImage(path: string)
      modifies this
      ensures var s := old(View());
              View() == s.(images := s.images + [path], curImages := s.curImages + [path],
                           text := s.text + config.template.imageToken)
    {
      images := images + [path];
      curImages := curImages + [path];
      text := text + config.template.imageToken;
    }

    method Execute(e: Expr)
      modifies this
      ensures View() == Executor.Execute(config, backend, old(View()), e)
      decreases e, 1
    {
      if raised {
        return;
      }
      match e
      case ConstantText(value) => ExecuteFill(value);
      case Gen(name, params) => ExecuteGen(name, params);
      case Select(name, choices) => ExecuteSelect(name, choices);
      case ExprList(items) =>
        ExecuteItems(items);
      case RoleBegin(role) => ExecuteRoleBegin(role);
      case RoleEnd(role) => ExecuteRoleEnd(role);
      case Image(path) => ExecuteImage(path);
      case VarScopeBegin(name) => variables := variables[name := Pos(|text|)];
      case VarScopeEnd(name) => ExecuteVarScopeEnd(name);
      case CommitLazy =>
      case ConcateAndAppend(kids) => ExecuteConcatenate(kids);
      case Argument(_) => raised := true;
      case Variable(_) => raised := true;
    }

    method ExecuteItems(items: seq<Expr>)
      modifies this
      ensures View() == ExecuteAll(config, backend, old(View()), items)
      decreases items, 0
    {
      for i := 0 to |items|
        invariant ExecuteAll(config, backend, View(), items[i..]) == ExecuteAll(config, backend, old(View()), items)
      {
        assert items[i..][1..] == items[i + 1..];
        Execute(items[i]);
      }
    }

    /** Fork into `size` children, each a copy of this executor. */
    method Fork(size: nat) returns (kids: seq<StreamExecutor>)
      modifies this
      ensures View() == old(View()).(forks := old(forks) + 1)
      ensures |kids| == size && forall i :: 0 <= i < size ==> fresh(kids[i]) && kids[i].View() == ForkChild(old(View()), i)
      ensures forall i :: 0 <= i < size ==> kids[i].Inherits(old(View()))
    {
      kids := [];
      for i := 0 to size
        invariant |kids| == i && View() == old(View())
        invariant forall j :: 0 <= j < i ==> fresh(kids[j]) && kids[j].View() == ForkChild(old(View()), j)
      {
        var kid := new StreamExecutor.ForkOf(this, i);
        kids := kids + [kid];
      }
      forks := forks + 1;
    }
  }

  lemma JoinSnoc(parts: seq<string>, i: nat)
    requires i < |parts|
    ensures Join(parts[..i + 1]) == Join(parts[..i]) + parts[i]
  {
    TakeSnoc(parts, i);
    JoinAppend(parts[..i], [parts[i]]);
    assert Join([parts[i]]) == parts[i] + Join([parts[i]][1..]);
  }
}
