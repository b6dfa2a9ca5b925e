/**
The state of a stream executor and what executing one expression does to it, as functions.
Class `StreamExecutor` implements these functions step by step.
Every executor property is proved about them.
*/
module Executor {
  import opened Options
  import opened Text
  import opened ChatTemplates
  import opened Ir

  /** A program variable: a text, the start of an open variable scope, or a list. */
  datatype Value = Str(text: string) | Pos(pos: nat) | Many(items: seq<Value>)

  datatype Request =
    | ForGen(params: Params)
    | ForStream(params: Params)
    | ForSpeculation(maxNewTokens: nat)
    | ForSelect(choices: seq<string>)

  /** One call of the backend: which executor asks, its how-many-eth call this is, and the text sent. */
  datatype Call = Call(sid: seq<nat>, index: nat, text: string, request: Request)

  datatype Completion = One(text: string) | Several(texts: seq<string>)

  /** A backend answers each call freely: as calls are never repeated, any run is covered. */
  datatype Backend = Backend(
    generate: Call -> Completion,
    generateStream: Call -> seq<string>,
    speculate: Call -> string,
    select: Call -> string)

  /** The settings that stay fixed while an executor lives. */
  datatype Config = Config(template: ChatTemplate, stream: bool, kvJoin: bool)

  datatype Exec = Exec(
    sid: seq<nat>,
    text: string,
    messages: seq<Message>,
    curRole: Option<string>,
    beginPos: Option<nat>,
    variables: map<string, Value>,
    events: map<string, bool>,
    images: seq<string>,
    curImages: seq<string>,
    forkPos: Option<nat>,
    specTokens: Option<nat>,
    speculated: string,
    calls: seq<Call>,
    forks: nat,
    raised: bool)

  /** A new executor, before anything was submitted. */
  function Fresh(sid: seq<nat>, specTokens: Option<nat>): Exec {
    Exec(sid, "", [], None, None, map[], map[], [], [], None, specTokens, "", [], 0, false)
  }

  function Raise(s: Exec): Exec { s.(raised := true) }

  function Fill(s: Exec, value: string): Exec {
    s.(speculated := if value <= s.speculated then s.speculated[|value|..] else "",
       text := s.text + value)
  }

  function SetEvent(s: Exec, name: string): Exec {
    if name in s.events then s.(events := s.events[name := true]) else Raise(s)
  }

  function Ask(s: Exec, request: Request): Call {
    Call(s.sid, |s.calls|, s.text, request)
  }

  /** The first position at which any stop string occurs, or -1. */
  function FirstStop(hay: string, stops: seq<string>): (r: int)
    ensures r == -1 <==> forall k :: 0 <= k < |stops| ==> !Contains(hay, stops[k])
    ensures r != -1 ==> 0 <= r <= |hay| && exists k :: 0 <= k < |stops| && OccursAt(hay, stops[k], r)
    ensures forall k, j :: 0 <= k < |stops| && 0 <= j && (r == -1 || j < r) ==> !OccursAt(hay, stops[k], j)
  {
    if stops == [] then -1
    else
      var before := FirstStop(hay, stops[..|stops| - 1]);
      var p := Find(hay, stops[|stops| - 1]);
      assert stops == stops[..|stops| - 1] + [stops[|stops| - 1]];
      if p != -1 && (before == -1 || p < before) then
        assert OccursAt(hay, stops[|stops| - 1], p);
        p
      else before
  }

  function StopList(stop: Stop): seq<string> {
    match stop
    case NoStop => []
    case OneStop(one) => [one]
    case ManyStops(many) => many
  }

  /** The outcome of `_spec_gen`: the completion, and the executor with its remaining speculation. */
  function SpecGen(b: Backend, s: Exec, params: Params): (string, Exec)
    requires s.specTokens.Some?
  {
    var atLeast := if params.maxNewTokens < s.specTokens.value then s.specTokens.value else params.maxNewTokens;
    var call := Ask(s, ForSpeculation(atLeast));
    var again := if params.stop.NoStop? then |s.speculated| < params.maxNewTokens else s.speculated == "";
    var s := if again then s.(speculated := b.speculate(call), calls := s.calls + [call]) else s;
    if params.stop.NoStop? then
      (Take(s.speculated, params.maxNewTokens), s.(speculated := Drop(s.speculated, params.maxNewTokens)))
    else
      var stopPos := FirstStop(s.speculated, StopList(params.stop));
      // After a new request the limit is the enlarged one.
      var limit := if again then atLeast else params.maxNewTokens;
      var cut := if stopPos == -1 then limit else stopPos;
      (Take(s.speculated, cut), s.(speculated := Drop(s.speculated, cut)))
  }

  /** A finished generation: the text grows, then the variable is stored, then its event is set. */
  function Publish(s: Exec, name: string, addition: string, value: Value): Exec {
    SetEvent(s.(text := s.text + addition, variables := s.variables[name := value]), name)
  }

  function Strs(texts: seq<string>): seq<Value> {
    seq(|texts|, i requires 0 <= i < |texts| => Str(texts[i]))
  }

  function ExecuteGen(c: Config, b: Backend, s: Exec, name: string, params: Params): Exec {
    if c.stream then
      if s.specTokens.Some? then Raise(s)
      else
        var call := Ask(s, ForStream(params));
        var asked := s.(calls := s.calls + [call]);
        if name !in s.events then Raise(asked.(variables := s.variables[name := Str("")]))
        else
          var all := Join(b.generateStream(call));
          Publish(asked, name, all, Str(all))
    else if s.specTokens.None? then
      var call := Ask(s, ForGen(params));
      var asked := s.(calls := s.calls + [call]);
      match b.generate(call)
      case One(comp) => Publish(asked, name, comp, Str(comp))
      case Several(comps) =>
        if comps == [] then Raise(asked) else Publish(asked, name, comps[0], Many(Strs(comps)))
    else
      var (comp, after) := SpecGen(b, s, params);
      Publish(after, name, comp, Str(comp))
  }

  function ExecuteSelect(b: Backend, s: Exec, name: Option<string>, choices: seq<string>): Exec {
    var call := Ask(s, ForSelect(choices));
    var decision := b.select(call);
    var asked := s.(calls := s.calls + [call]);
    match name
    case None => asked.(text := s.text + decision)
    case Some(n) =>
      var stored := SetEvent(asked.(variables := s.variables[n := Str(decision)]), n);
      if stored.raised then stored else stored.(text := s.text + decision)
  }

  /** Entering a role, once the default system message is out of the way. */
  function EnterRole(c: Config, s: Exec, role: string): Exec {
    var filled := Fill(s.(curRole := Some(role)), c.template.PrefixAndSuffix(role, s.messages).0);
    filled.(beginPos := Some(|filled.text|))
  }

  /** The raw content of the open role block. */
  function Content(s: Exec): string {
    Drop(s.text, if s.beginPos.None? then 0 else s.beginPos.value)
  }

  function ExecuteRoleEnd(c: Config, s: Exec, role: string): Exec {
    var message := Message(role, Some(LStrip(Content(s))), s.curImages);
    var filled := Fill(s.(curRole := None), c.template.PrefixAndSuffix(role, s.messages).1);
    filled.(messages := s.messages + [message], curImages := [])
  }

  predicate NeedsDefaultSystem(c: Config, s: Exec, role: string) {
    s.messages == [] && role != "system" && c.template.defaultSystem.Some? && c.template.defaultSystem.value != ""
  }

  function WithDefaultSystem(c: Config, s: Exec): Exec
    requires c.template.defaultSystem.Some?
  {
    ExecuteRoleEnd(c, Fill(EnterRole(c, s, "system"), c.template.defaultSystem.value), "system")
  }

  function Ready(c: Config, s: Exec, role: string): Exec {
    if NeedsDefaultSystem(c, s, role) then WithDefaultSystem(c, s) else s
  }

  function ExecuteRoleBegin(c: Config, s: Exec, role: string): Exec {
    if s.curRole.Some? then Raise(s) else EnterRole(c, Ready(c, s, role), role)
  }

  function ExecuteVarScopeEnd(s: Exec, name: string): Exec {
    if name !in s.variables || !s.variables[name].Pos? then Raise(s)
    else SetEvent(s.(variables := s.variables[name := Str(Drop(s.text, s.variables[name].pos))]), name)
  }

  /** What a child wrote after it was forked. */
  function Addition(kid: Kid): string {
    Drop(kid.text, if kid.forkPos.None? then 0 else kid.forkPos.value)
  }

  function Additions(kids: seq<Kid>): string {
    if kids == [] then "" else Addition(kids[0]) + Additions(kids[1..])
  }

  /** The key-value cache path: `origin` is the parent's length when the join began. */
  function ConcatenateKv(s: Exec, kids: seq<Kid>, origin: nat): Exec
    decreases |kids|
  {
    if kids == [] then s
    else if kids[0].forkPos != Some(origin) then Raise(s)
    else ConcatenateKv(s.(text := s.text + Addition(kids[0])), kids[1..], origin)
  }

  function Execute(c: Config, b: Backend, s: Exec, e: Expr): Exec
    decreases e, 1
  {
    if s.raised then s
    else
      match e
      case ConstantText(value) => Fill(s, value)
      case Gen(name, params) => ExecuteGen(c, b, s, name, params)
      case Select(name, choices) => ExecuteSelect(b, s, name, choices)
      case ExprList(items) => ExecuteAll(c, b, s, items)
      case RoleBegin(role) => ExecuteRoleBegin(c, s, role)
      case RoleEnd(role) => ExecuteRoleEnd(c, s, role)
      case Image(path) =>
        s.(images := s.images + [path], curImages := s.curImages + [path], text := s.text + c.template.imageToken)
      case VarScopeBegin(name) => s.(variables := s.variables[name := Pos(|s.text|)])
      case VarScopeEnd(name) => ExecuteVarScopeEnd(s, name)
      case CommitLazy => s
      case ConcateAndAppend(kids) =>
        if c.kvJoin then ConcatenateKv(s, kids, |s.text|) else Fill(s, Additions(kids))
      case Argument(_) => Raise(s)
      case Variable(_) => Raise(s)
  }

  function ExecuteAll(c: Config, b: Backend, s: Exec, es: seq<Expr>): Exec
    decreases es, 0
  {
    if es == [] then s else ExecuteAll(c, b, Execute(c, b, s, es[0]), es[1..])
  }

  /** The variables an expression announces when it is submitted. */
  function Announced(e: Expr): set<string>
    decreases e, 1
  {
    match e
    case Gen(name, _) => {name}
    case Select(Some(name), _) => {name}
    case VarScopeBegin(name) => {name}
    case ExprList(items) => AnnouncedAll(items)
    case _ => {}
  }

  function AnnouncedAll(es: seq<Expr>): set<string>
    decreases es, 0
  {
    if es == [] then {} else Announced(es[0]) + AnnouncedAll(es[1..])
  }

  function InitEvents(s: Exec, names: set<string>): Exec {
    s.(events := s.events + map name | name in names :: false)
  }

  /** Submitting to an executor that runs without a worker thread. */
  function Submit(c: Config, b: Backend, s: Exec, e: Expr): Exec {
    Execute(c, b, InitEvents(s, Announced(e)), e)
  }

  /** Child `i` of a fork: a copy of the parent that never speculates and has no events yet. */
  function ForkChild(s: Exec, i: nat): Exec {
    Fresh(s.sid + [s.forks, i], None).(
      variables := s.variables, text := s.text, messages := s.messages, curRole := s.curRole,
      beginPos := s.beginPos, forkPos := Some(|s.text|), images := s.images)
  }

  // ---------- What every execution keeps ----------

  /** Text and backend calls only grow, and each new call was sent a text extending that of `s`. */
  ghost predicate Grows(s: Exec, t: Exec) {
    && s.text <= t.text
    && s.calls <= t.calls
    && (forall k :: |s.calls| <= k < |t.calls| ==> s.text <= t.calls[k].text)
    && t.sid == s.sid && t.specTokens == s.specTokens && t.forkPos == s.forkPos
  }

  /** ... and nothing happens after an exception. */
  ghost predicate Extends(s: Exec, t: Exec) {
    Grows(s, t) && (s.raised ==> t == s)
  }

  lemma GrowsTransitive(s: Exec, t: Exec, u: Exec)
    requires Grows(s, t) && Grows(t, u)
    ensures Grows(s, u)
  {
    forall k | |s.calls| <= k < |u.calls|
      ensures s.text <= u.calls[k].text
    {
      if k < |t.calls| {
        assert u.calls[k] == t.calls[k];
      }
    }
  }

  lemma ExtendsTransitive(s: Exec, t: Exec, u: Exec)
    requires Extends(s, t) && Extends(t, u)
    ensures Extends(s, u)
  {
    GrowsTransitive(s, t, u);
  }

  lemma {:induction false} ConcatenateKvExtends(s: Exec, kids: seq<Kid>, origin: nat)
    ensures !s.raised ==> Extends(s, ConcatenateKv(s, kids, origin))
    decreases |kids|
  {
    if kids != [] && kids[0].forkPos == Some(origin) && !s.raised {
      var next := s.(text := s.text + Addition(kids[0]));
      ConcatenateKvExtends(next, kids[1..], origin);
      ExtendsTransitive(s, next, ConcatenateKv(s, kids, origin));
    }
  }

  lemma SpecGenExtends(b: Backend, s: Exec, params: Params)
    requires !s.raised && s.specTokens.Some?
    ensures Extends(s, SpecGen(b, s, params).1)
    ensures SpecGen(b, s, params).1.text == s.text
  {}

  lemma PublishExtends(s: Exec, name: string, addition: string, value: Value)
    requires !s.raised
    ensures Extends(s, Publish(s, name, addition, value))
  {}

  lemma ExecuteGenExtends(c: Config, b: Backend, s: Exec, name: string, params: Params)
    requires !s.raised
    ensures Extends(s, ExecuteGen(c, b, s, name, params))
  {
    var asked := s.(calls := s.calls + [Ask(s, if c.stream then ForStream(params) else ForGen(params))]);
    assert Extends(s, asked);
    if !c.stream && s.specTokens.Some? {
      var (comp, after) := SpecGen(b, s, params);
      SpecGenExtends(b, s, params);
      PublishExtends(after, name, comp, Str(comp));
      ExtendsTransitive(s, after, Publish(after, name, comp, Str(comp)));
    } else if !c.stream {
      match b.generate(Ask(s, ForGen(params)))
      case One(comp) => PublishExtends(asked, name, comp, Str(comp));
      case Several(comps) =>
        if comps != [] {
          PublishExtends(asked, name, comps[0], Many(Strs(comps)));
        }
    } else if name in s.events && s.specTokens.None? {
      var all := Join(b.generateStream(Ask(s, ForStream(params))));
      PublishExtends(asked, name, all, Str(all));
    }
  }

  lemma ExecuteRoleBeginExtends(c: Config, s: Exec, role: string)
    requires !s.raised
    ensures Extends(s, ExecuteRoleBegin(c, s, role))
  {
    if s.curRole.None? && NeedsDefaultSystem(c, s, role) {
      var entered := EnterRole(c, s, "system");
      var filled := Fill(entered, c.template.defaultSystem.value);
      ExtendsTransitive(s, entered, filled);
      ExtendsTransitive(s, filled, WithDefaultSystem(c, s));
      ExtendsTransitive(s, WithDefaultSystem(c, s), ExecuteRoleBegin(c, s, role));
    }
  }

  /** Executing any expression only appends: to the text and to what the backend is asked. */
  lemma {:induction false} ExecuteExtends(c: Config, b: Backend, s: Exec, e: Expr)
    ensures Extends(s, Execute(c, b, s, e))
    decreases e, 1
  {
    if !s.raised {
      match e
      case ExprList(items) => ExecuteAllExtends(c, b, s, items);
      case Gen(name, params) => ExecuteGenExtends(c, b, s, name, params);
      case RoleBegin(role) => ExecuteRoleBeginExtends(c, s, role);
      case ConcateAndAppend(kids) => ConcatenateKvExtends(s, kids, |s.text|);
      case _ =>
    }
  }

  lemma {:induction false} ExecuteAllExtends(c: Config, b: Backend, s: Exec, es: seq<Expr>)
    ensures Extends(s, ExecuteAll(c, b, s, es))
    decreases es, 0
  {
    if es != [] {
      var next := Execute(c, b, s, es[0]);
      ExecuteExtends(c, b, s, es[0]);
      ExecuteAllExtends(c, b, next, es[1..]);
      ExtendsTransitive(s, next, ExecuteAll(c, b, next, es[1..]));
    }
  }

  lemma {:induction false} ExecuteAllAppend(c: Config, b: Backend, s: Exec, xs: seq<Expr>, ys: seq<Expr>)
    ensures ExecuteAll(c, b, s, xs + ys) == ExecuteAll(c, b, ExecuteAll(c, b, s, xs), ys)
    decreases |xs|
  {
    if xs == [] {
      assert xs + ys == ys;
    } else {
      assert (xs + ys)[1..] == xs[1..] + ys;
      ExecuteAllAppend(c, b, Execute(c, b, s, xs[0]), xs[1..], ys);
    }
  }

  lemma ExecuteAllCons(c: Config, b: Backend, s: Exec, e: Expr, es: seq<Expr>)
    ensures ExecuteAll(c, b, s, [e] + es) == ExecuteAll(c, b, Execute(c, b, s, e), es)
  {
    assert ([e] + es)[1..] == es;
  }

  lemma ExecuteAllSnoc(c: Config, b: Backend, s: Exec, es: seq<Expr>, e: Expr)
    ensures ExecuteAll(c, b, s, es + [e]) == Execute(c, b, ExecuteAll(c, b, s, es), e)
  {
    ExecuteAllAppend(c, b, s, es, [e]);
    assert [e][1..] == [];
  }

  lemma ExecuteAllAround(c: Config, b: Backend, s: Exec, first: Expr, es: seq<Expr>, last: Expr)
    ensures ExecuteAll(c, b, s, [first] + es + [last]) ==
            Execute(c, b, ExecuteAll(c, b, Execute(c, b, s, first), es), last)
  {
    ExecuteAllSnoc(c, b, s, [first] + es, last);
    ExecuteAllCons(c, b, s, first, es);
  }

  /** Two fills in a row are one fill of the concatenation, also for the speculation they consume. */
  lemma FillTwice(s: Exec, x: string, y: string)
    ensures Fill(Fill(s, x), y) == Fill(s, x + y)
  {
    assert s.text + x + y == s.text + (x + y);
    if x <= s.speculated {
      var rest := s.speculated[|x|..];
      assert s.speculated == x + rest;
      assert y <= rest ==> s.speculated == (x + y) + rest[|y|..];
      assert x + y <= s.speculated ==> y <= rest;
    }
  }

  /** Executing `x + y` is executing `x` and then `y`. */
  lemma ConcatenateIrExecutes(c: Config, b: Backend, s: Exec, x: Expr, y: Expr)
    requires !s.raised
    ensures Execute(c, b, s, ConcatenateIr(x, y)) == Execute(c, b, Execute(c, b, s, x), y)
  {
    ConcatenateIrItems(x, y);
    ExecuteAllAppend(c, b, s, Items(x), Items(y));
    ExecuteItems(c, b, s, x);
    ExecuteItems(c, b, Execute(c, b, s, x), y);
  }

  lemma ExecuteItems(c: Config, b: Backend, s: Exec, x: Expr)
    ensures ExecuteAll(c, b, s, Items(x)) == Execute(c, b, s, x)
  {
    if x.ExprList? {
      ExecuteAllExtends(c, b, s, x.items);
    } else {
      assert [x][1..] == [];
    }
  }

  // ---------- The two ways of joining children ----------

  lemma {:induction false} AdditionsSnoc(kids: seq<Kid>, last: Kid)
    ensures Additions(kids + [last]) == Additions(kids) + Addition(last)
  {
    if kids == [] {
      assert Additions([last]) == Addition(last) + Additions([last][1..]);
    } else {
      assert (kids + [last])[1..] == kids[1..] + [last];
      AdditionsSnoc(kids[1..], last);
    }
  }

  function WithText(s: Exec, text: string): Exec { s.(text := text) }

  predicate ForkedAt(kids: seq<Kid>, origin: nat) {
    forall kid :: kid in kids ==> kid.forkPos == Some(origin)
  }

  /** The cache path runs through exactly when every child was forked at the length the parent has now. */
  lemma {:induction false} KvJoinRaises(s: Exec, kids: seq<Kid>, origin: nat)
    requires !s.raised
    ensures ConcatenateKv(s, kids, origin).raised <==> !ForkedAt(kids, origin)
    decreases |kids|
  {
    if kids != [] {
      ForkedAtHead(kids, origin);
      if kids[0].forkPos == Some(origin) {
        KvJoinRaises(s.(text := s.text + Addition(kids[0])), kids[1..], origin);
      }
    }
  }

  /** ... and then it appends what the text path appends, and changes nothing else. */
  lemma {:induction false} KvJoinMeetsTextJoin(s: Exec, kids: seq<Kid>, origin: nat)
    requires ForkedAt(kids, origin)
    ensures ConcatenateKv(s, kids, origin) == WithText(s, s.text + Additions(kids))
    decreases |kids|
  {
    if kids == [] {
      ConcatAssociative(s.text, "", "");
    } else {
      ForkedAtHead(kids, origin);
      var next := WithText(s, s.text + Addition(kids[0]));
      KvJoinMeetsTextJoin(next, kids[1..], origin);
      ConcatAssociative(s.text, Addition(kids[0]), Additions(kids[1..]));
    }
  }

  lemma ForkedAtHead(kids: seq<Kid>, origin: nat)
    requires kids != []
    ensures ForkedAt(kids, origin) <==> kids[0].forkPos == Some(origin) && ForkedAt(kids[1..], origin)
  {
    assert kids == [kids[0]] + kids[1..];
  }
}
