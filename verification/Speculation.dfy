/**
Speculative execution against a completion backend: a generation asks for more than it needs,
later fills and generations are served from the surplus.
*/
module Speculation {
  import opened Options
  import opened Text
  import opened Ir
  import opened Executor

  /** The whole continuation the model would write after a text. */
  type Continuation = string -> string

  /** Writing part of the continuation first does not change the rest. */
  ghost predicate PrefixConsistent(cont: Continuation) {
    forall t: string, m: nat :: m <= |cont(t)| ==> cont(t + cont(t)[..m]) == cont(t)[m..]
  }

  /** How much of `text` is returned: up to the first stop string, or else up to the limit. */
  function CutAt(text: string, stops: seq<string>, limit: nat): (n: nat)
    ensures n <= |text|
  {
    var p := FirstStop(text, stops);
    if p != -1 then p else if |text| <= limit then |text| else limit
  }

  /** What direct generation returns when the model would write `whole`. */
  function Reply(whole: string, params: Params): string {
    var within := Take(whole, params.maxNewTokens);
    within[..CutAt(within, StopList(params.stop), params.maxNewTokens)]
  }

  /**
  A deterministic backend: generation returns the continuation up to the limit and the first stop string, speculation ignores stop strings,
  and a select looks only at the text.
  */
  ghost predicate Follows(b: Backend, cont: Continuation) {
    && (forall call: Call :: call.request.ForGen? ==> b.generate(call) == One(Reply(cont(call.text), call.request.params)))
    && (forall call: Call :: call.request.ForSpeculation? ==>
          b.speculate(call) == Take(cont(call.text), call.request.maxNewTokens))
    && (forall x: Call, y: Call :: x.text == y.text && x.request == y.request ==> b.select(x) == b.select(y))
  }

  /** The surplus is what the model would write next anyway. */
  ghost predicate Surplus(cont: Continuation, s: Exec) {
    s.speculated <= cont(s.text)
  }

  /** Everything a program can observe of an executor. */
  function Observed(s: Exec): Exec {
    s.(specTokens := None, speculated := "", calls := [])
  }

  /** `s` speculates, `d` generates directly, and a program cannot tell them apart. */
  ghost predicate Same(cont: Continuation, s: Exec, d: Exec) {
    s.specTokens.Some? && d.specTokens.None? && Surplus(cont, s) && Observed(s) == Observed(d)
  }

  /** The size of the request when a new one is needed. */
  function Enlarged(s: Exec, params: Params): nat
    requires s.specTokens.Some?
  {
    if params.maxNewTokens < s.specTokens.value then s.specTokens.value else params.maxNewTokens
  }

  /** The text a generation with stop strings cuts: the surplus, or a new reply when there is none. */
  function Material(b: Backend, s: Exec, params: Params): string
    requires s.specTokens.Some?
  {
    if s.speculated == "" then b.speculate(Ask(s, ForSpeculation(Enlarged(s, params)))) else s.speculated
  }

  /** A generation without stop strings is always right; one with a stop list is when both ways cut at the same place. */
  predicate CutsAlike(b: Backend, cont: Continuation, s: Exec, params: Params)
    requires s.specTokens.Some?
  {
    params.stop.NoStop? ||
    var stops := StopList(params.stop);
    CutAt(Material(b, s, params), stops, if s.speculated == "" then Enlarged(s, params) else params.maxNewTokens) ==
    CutAt(Take(cont(s.text), params.maxNewTokens), stops, params.maxNewTokens)
  }

  /**
  What a speculating run may do: generate where both ways cut at the same place, fill, open and close roles and scopes.
  A step that writes without going through a fill needs an empty surplus, or must write nothing.
  */
  predicate Allowed(c: Config, b: Backend, cont: Continuation, s: Exec, e: Expr)
    decreases e, 1
  {
    match e
    case Gen(_, params) => s.raised || s.specTokens.None? || CutsAlike(b, cont, s, params)
    case Select(_, choices) => s.raised || s.speculated == "" || b.select(Ask(s, ForSelect(choices))) == ""
    case Image(_) => s.raised || s.speculated == "" || c.template.imageToken == ""
    case ConcateAndAppend(kids) =>
      s.raised || !c.kvJoin || s.speculated == "" || ConcatenateKv(s, kids, |s.text|).text == s.text
    case ExprList(items) => AllAllowed(c, b, cont, s, items)
    case _ => true
  }

  predicate AllAllowed(c: Config, b: Backend, cont: Continuation, s: Exec, es: seq<Expr>)
    decreases es, 0
  {
    es == [] || (Allowed(c, b, cont, s, es[0]) && AllAllowed(c, b, cont, Execute(c, b, s, es[0]), es[1..]))
  }

  lemma SurplusAfterWriting(cont: Continuation, text: string, surplus: string, written: string)
    requires PrefixConsistent(cont) && written + surplus <= cont(text)
    ensures surplus <= cont(text + written)
  {
    var whole := cont(text);
    assert whole[..|written + surplus|] == written + surplus;
    assert whole[..|written|] == (written + surplus)[..|written|] == written;
    assert whole[|written|..][..|surplus|] == (written + surplus)[|written|..] == surplus;
  }

  lemma FillKeepsSurplus(cont: Continuation, s: Exec, value: string)
    requires PrefixConsistent(cont) && Surplus(cont, s)
    ensures Surplus(cont, Fill(s, value))
    ensures Observed(Fill(s, value)) == Fill(Observed(s), value)
  {
    if value <= s.speculated {
      assert s.speculated == value + s.speculated[|value|..];
      SurplusAfterWriting(cont, s.text, s.speculated[|value|..], value);
    }
  }

  lemma TakeOfPrefix(x: string, y: string, m: nat, n: nat)
    requires x <= y && m <= |x| && n <= |y|
    ensures x[..m] == y[..n] <==> m == n
  {
    if m == n {
      assert y[..|x|] == x;
    }
  }

  lemma {:induction false} NoStops(text: string)
    ensures FirstStop(text, []) == -1
  {}

  /** Whatever the stop strings, completion and new surplus are what the model would write next. */
  lemma SpecGenContinues(b: Backend, cont: Continuation, s: Exec, params: Params)
    requires Follows(b, cont) && Surplus(cont, s) && s.specTokens.Some?
    ensures var (comp, after) := SpecGen(b, s, params);
            comp + after.speculated <= cont(s.text) && Observed(after) == Observed(s)
  {}

  lemma SpecGenCuts(b: Backend, cont: Continuation, s: Exec, params: Params)
    requires Follows(b, cont) && Surplus(cont, s) && s.specTokens.Some?
    ensures !params.stop.NoStop? ==>
              |SpecGen(b, s, params).0| == CutAt(Material(b, s, params), StopList(params.stop),
                                                 if s.speculated == "" then Enlarged(s, params) else params.maxNewTokens)
    ensures params.stop.NoStop? ==> SpecGen(b, s, params).0 == Take(cont(s.text), params.maxNewTokens)
  {}

  /** A speculated completion is the direct one exactly when both ways cut at the same place; either way the surplus stays right. */
  lemma SpecGenIsDirectExactlyWhen(b: Backend, cont: Continuation, s: Exec, params: Params)
    requires PrefixConsistent(cont) && Follows(b, cont) && Surplus(cont, s) && s.specTokens.Some?
    ensures var (comp, after) := SpecGen(b, s, params);
            && (comp == Reply(cont(s.text), params) <==> CutsAlike(b, cont, s, params))
            && after.speculated <= cont(s.text + comp)
            && Observed(after) == Observed(s)
  {
    var (comp, after) := SpecGen(b, s, params);
    SpecGenContinues(b, cont, s, params);
    SpecGenCuts(b, cont, s, params);
    SurplusAfterWriting(cont, s.text, after.speculated, comp);
    ReplyIsPrefix(cont(s.text), params);
    TakeOfPrefix(cont(s.text), cont(s.text), |comp|, |Reply(cont(s.text), params)|);
  }

  lemma ReplyIsPrefix(whole: string, params: Params)
    ensures Reply(whole, params) <= whole
    ensures params.stop.NoStop? ==> Reply(whole, params) == Take(whole, params.maxNewTokens)
  {
    NoStops(Take(whole, params.maxNewTokens));
  }

  lemma GenKeepsSame(c: Config, b: Backend, cont: Continuation, s: Exec, d: Exec, name: string, params: Params)
    requires PrefixConsistent(cont) && Follows(b, cont) && Same(cont, s, d) && !c.stream
    requires !s.raised && CutsAlike(b, cont, s, params)
    ensures Same(cont, ExecuteGen(c, b, s, name, params), ExecuteGen(c, b, d, name, params))
  {
    SpecGenIsDirectExactlyWhen(b, cont, s, params);
    var call := Ask(d, ForGen(params));
    assert b.generate(call) == One(Reply(cont(d.text), params));
    assert s.text == Observed(s).text == Observed(d).text == d.text;
    var (comp, after) := SpecGen(b, s, params);
    PublishObserved(after, name, comp);
    PublishObserved(d.(calls := d.calls + [call]), name, comp);
  }

  lemma PublishObserved(s: Exec, name: string, comp: string)
    ensures Observed(Publish(s, name, comp, Str(comp))) == Publish(Observed(s), name, comp, Str(comp))
    ensures Publish(s, name, comp, Str(comp)).speculated == s.speculated
    ensures Publish(s, name, comp, Str(comp)).text == s.text + comp
    ensures Publish(s, name, comp, Str(comp)).specTokens == s.specTokens
  {}

  lemma FillKeepsSame(cont: Continuation, s: Exec, d: Exec, value: string)
    requires PrefixConsistent(cont) && Same(cont, s, d)
    ensures Same(cont, Fill(s, value), Fill(d, value))
  {
    FillKeepsSurplus(cont, s, value);
  }

  lemma EnterRoleKeepsSame(c: Config, cont: Continuation, s: Exec, d: Exec, role: string)
    requires PrefixConsistent(cont) && Same(cont, s, d)
    ensures Same(cont, EnterRole(c, s, role), EnterRole(c, d, role))
  {
    assert s.messages == Observed(s).messages == d.messages;
    FillKeepsSame(cont, s.(curRole := Some(role)), d.(curRole := Some(role)), c.template.PrefixAndSuffix(role, s.messages).0);
  }

  lemma RoleEndKeepsSame(c: Config, cont: Continuation, s: Exec, d: Exec, role: string)
    requires PrefixConsistent(cont) && Same(cont, s, d)
    ensures Same(cont, ExecuteRoleEnd(c, s, role), ExecuteRoleEnd(c, d, role))
  {
    assert s.messages == Observed(s).messages == d.messages;
    assert Content(s) == Content(Observed(s)) == Content(Observed(d)) == Content(d);
    assert s.curImages == Observed(s).curImages == d.curImages;
    FillKeepsSame(cont, s.(curRole := None), d.(curRole := None), c.template.PrefixAndSuffix(role, s.messages).1);
  }

  lemma RoleBeginKeepsSame(c: Config, cont: Continuation, s: Exec, d: Exec, role: string)
    requires PrefixConsistent(cont) && Same(cont, s, d)
    ensures Same(cont, ExecuteRoleBegin(c, s, role), ExecuteRoleBegin(c, d, role))
  {
    assert s.messages == Observed(s).messages == d.messages;
    assert s.curRole == Observed(s).curRole == d.curRole;
    if s.curRole.None? {
      if NeedsDefaultSystem(c, s, role) {
        var prompt := c.template.defaultSystem.value;
        EnterRoleKeepsSame(c, cont, s, d, "system");
        FillKeepsSame(cont, EnterRole(c, s, "system"), EnterRole(c, d, "system"), prompt);
        RoleEndKeepsSame(c, cont, Fill(EnterRole(c, s, "system"), prompt), Fill(EnterRole(c, d, "system"), prompt), "system");
        EnterRoleKeepsSame(c, cont, WithDefaultSystem(c, s), WithDefaultSystem(c, d), role);
      } else {
        EnterRoleKeepsSame(c, cont, s, d, role);
      }
    }
  }

  lemma {:induction false} KvKeepsSame(cont: Continuation, s: Exec, d: Exec, kids: seq<Kid>, origin: nat)
    requires Same(cont, s, d) && !s.raised
    requires s.speculated == "" || ConcatenateKv(s, kids, origin).text == s.text
    ensures Same(cont, ConcatenateKv(s, kids, origin), ConcatenateKv(d, kids, origin))
    decreases |kids|
  {
    if kids != [] && kids[0].forkPos == Some(origin) {
      assert s.text == Observed(s).text == d.text;
      var next := s.(text := s.text + Addition(kids[0]));
      ConcatenateKvExtends(next, kids[1..], origin);
      ConcatAssociative(s.text, "", "");
      KvKeepsSame(cont, next, d.(text := d.text + Addition(kids[0])), kids[1..], origin);
    }
  }

  lemma SelectKeepsSame(b: Backend, cont: Continuation, s: Exec, d: Exec, name: Option<string>, choices: seq<string>)
    requires Follows(b, cont) && Same(cont, s, d)
    requires s.speculated == "" || b.select(Ask(s, ForSelect(choices))) == ""
    ensures Same(cont, ExecuteSelect(b, s, name, choices), ExecuteSelect(b, d, name, choices))
  {
    assert s.text == Observed(s).text == d.text;
    assert b.select(Ask(s, ForSelect(choices))) == b.select(Ask(d, ForSelect(choices)));
    ConcatAssociative(s.text, "", "");
  }

  /** One step: whatever an allowed expression does, speculating and direct execution stay the same to the program. */
  lemma {:induction false} ExecuteKeepsSame(c: Config, b: Backend, cont: Continuation, s: Exec, d: Exec, e: Expr)
    requires PrefixConsistent(cont) && Follows(b, cont) && Same(cont, s, d) && !c.stream
    requires Allowed(c, b, cont, s, e)
    ensures Same(cont, Execute(c, b, s, e), Execute(c, b, d, e))
    decreases e, 1
  {
    assert s.raised == Observed(s).raised == d.raised;
    assert s.text == Observed(s).text == d.text;
    assert s.variables == Observed(s).variables == d.variables;
    if !s.raised {
      match e
      case ConstantText(value) => FillKeepsSame(cont, s, d, value);
      case Gen(name, params) => GenKeepsSame(c, b, cont, s, d, name, params);
      case Select(name, choices) => SelectKeepsSame(b, cont, s, d, name, choices);
      case ExprList(items) => SpeculationPreservesMeaning(c, b, cont, s, d, items);
      case RoleBegin(role) => RoleBeginKeepsSame(c, cont, s, d, role);
      case RoleEnd(role) => RoleEndKeepsSame(c, cont, s, d, role);
      case ConcateAndAppend(kids) =>
        if c.kvJoin {
          KvKeepsSame(cont, s, d, kids, |s.text|);
        } else {
          FillKeepsSame(cont, s, d, Additions(kids));
        }
      case Image(_) =>
        ConcatAssociative(s.text, "", "");
        assert Observed(s).images == Observed(d).images && Observed(s).curImages == Observed(d).curImages;
      case VarScopeEnd(_) => assert Observed(s).events == Observed(d).events;
      case _ =>
    }
  }

  /** Whole runs: speculation changes neither the text, nor the messages, nor any variable or event. */
  lemma {:induction false} SpeculationPreservesMeaning(c: Config, b: Backend, cont: Continuation, s: Exec, d: Exec, es: seq<Expr>)
    requires PrefixConsistent(cont) && Follows(b, cont) && Same(cont, s, d) && !c.stream
    requires AllAllowed(c, b, cont, s, es)
    ensures Same(cont, ExecuteAll(c, b, s, es), ExecuteAll(c, b, d, es))
    decreases es, 0
  {
    if es != [] {
      ExecuteKeepsSame(c, b, cont, s, d, es[0]);
      SpeculationPreservesMeaning(c, b, cont, Execute(c, b, s, es[0]), Execute(c, b, d, es[0]), es[1..]);
    }
  }

  // ---------- Why an empty surplus is asked for ----------

  /** A model that recites a script: the simplest consistent continuation. */
  function Reciting(script: string): Continuation {
    t => if t <= script then script[|t|..] else ""
  }

  lemma RecitingIsPrefixConsistent(script: string)
    ensures PrefixConsistent(Reciting(script))
  {
    var cont := Reciting(script);
    forall t: string, m: nat | m <= |cont(t)|
      ensures cont(t + cont(t)[..m]) == cont(t)[m..]
    {
      if t <= script {
        assert script == t + cont(t);
        assert t + cont(t)[..m] == script[..|t| + m];
      }
    }
  }

  function RecitingBackend(script: string): Backend {
    var cont := Reciting(script);
    Backend(
      (call: Call) => One(if call.request.ForGen? then Reply(cont(call.text), call.request.params) else ""),
      (call: Call) => [],
      (call: Call) => if call.request.ForSpeculation? then Take(cont(call.text), call.request.maxNewTokens) else "",
      (call: Call) => "")
  }

  /**
  Writing past the fill, as a select, an image or the cache join does, leaves the next completion right for every consistent model
  exactly when nothing was speculated or nothing is written.
  */
  lemma AppendingPastAFill(s: Exec, addition: string)
    requires s.specTokens.Some?
    ensures (forall b, cont, n: nat :: PrefixConsistent(cont) && Follows(b, cont) && Surplus(cont, s) ==>
               SpecGen(b, WithText(s, s.text + addition), Params(n, NoStop)).0 == Take(cont(s.text + addition), n))
            <==> s.speculated == "" || addition == ""
  {
    if s.speculated == "" || addition == "" {
      forall b, cont, n: nat | PrefixConsistent(cont) && Follows(b, cont) && Surplus(cont, s)
        ensures SpecGen(b, WithText(s, s.text + addition), Params(n, NoStop)).0 == Take(cont(s.text + addition), n)
      {
        ConcatAssociative(s.text, "", "");
        NoStops(Take(cont(s.text + addition), n));
        SpecGenIsDirectExactlyWhen(b, cont, WithText(s, s.text + addition), Params(n, NoStop));
      }
    } else {
      var script, n := s.text + s.speculated, |s.speculated|;
      var (b, cont) := (RecitingBackend(script), Reciting(script));
      RecitingIsPrefixConsistent(script);
      var comp := SpecGen(b, WithText(s, s.text + addition), Params(n, NoStop)).0;
      assert comp == s.speculated;
      assert |cont(s.text + addition)| < n;
      assert comp != Take(cont(s.text + addition), n);
    }
  }

  // ---------- Stop strings ----------

  /**
  With stop strings, the completion continues the text, holds no stop string and, together with the new surplus,
  rebuilds the material. If the material holds a stop string, the new surplus begins with one.
  */
  lemma SpecGenWithStops(b: Backend, cont: Continuation, s: Exec, params: Params)
    requires PrefixConsistent(cont) && Follows(b, cont) && Surplus(cont, s)
    requires s.specTokens.Some? && !params.stop.NoStop?
    requires forall stop :: stop in StopList(params.stop) ==> stop != ""
    ensures var (comp, after) := SpecGen(b, s, params);
            && comp + after.speculated == Material(b, s, params)
            && comp <= cont(s.text)
            && after.speculated <= cont(s.text + comp)
            && (forall stop :: stop in StopList(params.stop) ==> !Contains(comp, stop))
            && ((exists stop :: stop in StopList(params.stop) && Contains(Material(b, s, params), stop)) ==>
                  exists stop :: stop in StopList(params.stop) && stop <= after.speculated)
  {
    var stops := StopList(params.stop);
    var material := Material(b, s, params);
    var (comp, after) := SpecGen(b, s, params);
    var stopPos := FirstStop(material, stops);
    assert comp + after.speculated == material;
    SurplusAfterWriting(cont, s.text, after.speculated, comp);
    forall stop | stop in stops
      ensures !Contains(comp, stop)
    {
      var k :| 0 <= k < |stops| && stops[k] == stop;
      forall i ensures !OccursAt(comp, stop, i) {
        if OccursAt(comp, stop, i) {
          OccursInPrefix(material, comp, stop, i);
        }
      }
    }
    if stopPos != -1 {
      var k :| 0 <= k < |stops| && OccursAt(material, stops[k], stopPos);
      assert after.speculated == material[stopPos..];
      assert after.speculated[..|stops[k]|] == material[stopPos..stopPos + |stops[k]|] == stops[k];
      assert stops[k] in stops;
    }
  }

  /**
  An empty stop list, the default of a run, takes the branch with stop strings. It then returns what direct generation returns
  exactly when the surplus is long enough or complete, or, without a surplus, when the request was not enlarged or the model had no more to say.
  */
  lemma EmptyStopListIsDirectExactlyWhen(b: Backend, cont: Continuation, s: Exec, params: Params)
    requires Follows(b, cont) && Surplus(cont, s) && s.specTokens.Some?
    requires params.stop == ManyStops([])
    ensures SpecGen(b, s, params).0 == Take(cont(s.text), params.maxNewTokens) <==>
            if s.speculated != "" then params.maxNewTokens <= |s.speculated| || s.speculated == cont(s.text)
            else s.specTokens.value <= params.maxNewTokens || |cont(s.text)| <= params.maxNewTokens
  {
    var material := Material(b, s, params);
    assert FirstStop(material, []) == -1;
    assert s.speculated == cont(s.text)[..|s.speculated|];
  }

  /**
  A condition to be checked beforehand: the material holds a stop string that ends within the request.
  A short surplus must also reach far enough that no longer stop string can begin earlier, which a single stop string never does.
  */
  predicate StopsInTime(material: string, renewed: bool, params: Params, stop: string) {
    var (stops, p) := (StopList(params.stop), FirstStop(material, StopList(params.stop)));
    && stop in stops && OccursAt(material, stop, p) && p + |stop| <= params.maxNewTokens
    && (renewed || params.maxNewTokens <= |material| || forall other :: other in stops ==> p + |other| <= |material| + 1)
  }

  lemma StopWithinRequestIsDirect(b: Backend, cont: Continuation, s: Exec, params: Params, stop: string)
    requires Follows(b, cont) && Surplus(cont, s) && s.specTokens.Some? && !params.stop.NoStop?
    requires StopsInTime(Material(b, s, params), s.speculated == "", params, stop)
    ensures CutsAlike(b, cont, s, params)
  {
    var (material, stops) := (Material(b, s, params), StopList(params.stop));
    var p := FirstStop(material, stops);
    var within := Take(cont(s.text), params.maxNewTokens);
    assert material <= cont(s.text) && within <= cont(s.text);
    SameOccurrence(cont(s.text), material, within, stop, p);
    forall k, j | 0 <= k < |stops| && 0 <= j < p
      ensures !OccursAt(within, stops[k], j)
    {
      assert stops[k] in stops;
      if OccursAt(within, stops[k], j) {
        SameOccurrence(cont(s.text), within, material, stops[k], j);
      }
    }
  }

  /** Two beginnings of the same text hold the same at the same places. */
  lemma SameOccurrence(whole: string, x: string, y: string, needle: string, i: int)
    requires x <= whole && y <= whole && OccursAt(x, needle, i) && i + |needle| <= |y|
    ensures OccursAt(y, needle, i)
  {
    assert x == whole[..|x|] && y == whole[..|y|];
    assert y[i..i + |needle|] == whole[i..i + |needle|] == x[i..i + |needle|];
  }

  /** When the material covers the request, the two ways can be compared without the model's continuation. */
  lemma CoveredRequestIsDirectExactlyWhen(b: Backend, cont: Continuation, s: Exec, params: Params)
    requires Follows(b, cont) && Surplus(cont, s) && s.specTokens.Some? && !params.stop.NoStop?
    requires params.maxNewTokens <= |Material(b, s, params)|
    ensures var (material, stops) := (Material(b, s, params), StopList(params.stop));
            CutsAlike(b, cont, s, params) <==>
            CutAt(material, stops, if s.speculated == "" then Enlarged(s, params) else params.maxNewTokens) ==
            CutAt(material[..params.maxNewTokens], stops, params.maxNewTokens)
  {
    var material := Material(b, s, params);
    assert material <= cont(s.text);
    assert material[..params.maxNewTokens] == Take(cont(s.text), params.maxNewTokens);
  }

  // ---------- Runs in which speculation changes the text ----------

  lemma StopIsAt(hay: string, stops: seq<string>, k: nat, p: int)
    requires k < |stops| && OccursAt(hay, stops[k], p)
    requires forall i, j :: 0 <= i < |stops| && 0 <= j < p ==> !OccursAt(hay, stops[i], j)
    ensures FirstStop(hay, stops) == p
  {
    assert Contains(hay, stops[k]);
    var r := FirstStop(hay, stops);
    var i :| 0 <= i < |stops| && OccursAt(hay, stops[i], r);
  }

  lemma CharIsAt(hay: string, c: char, p: nat)
    requires p < |hay| && hay[p] == c && c !in hay[..p]
    ensures OccursAt(hay, [c], p) && forall j :: 0 <= j < p ==> !OccursAt(hay, [c], j)
  {
    forall j | 0 <= j < p
      ensures !OccursAt(hay, [c], j)
    {
      assert hay[j..j + 1][0] == hay[..p][j];
    }
  }

  /** One generation, submitted after others. */
  function Generate(c: Config, b: Backend, s: Exec, name: string, params: Params): Exec {
    Submit(c, b, s, Gen(name, params))
  }

  lemma GenerateDirectly(c: Config, b: Backend, cont: Continuation, d: Exec, name: string, params: Params)
    requires Follows(b, cont) && !c.stream && !d.raised && d.specTokens.None?
    ensures var t := Generate(c, b, d, name, params);
            t.text == d.text + Reply(cont(d.text), params) && !t.raised && t.specTokens.None?
  {
    assert b.generate(Ask(d, ForGen(params))) == One(Reply(cont(d.text), params));
  }

  lemma GenerateSpeculating(c: Config, b: Backend, s: Exec, name: string, params: Params)
    requires !c.stream && !s.raised && s.specTokens.Some?
    ensures var t := Generate(c, b, s, name, params);
            && t.text == s.text + SpecGen(b, s, params).0 && t.speculated == SpecGen(b, s, params).1.speculated
            && !t.raised && t.specTokens == s.specTokens
  {
    var ready := InitEvents(s, {name});
    assert SpecGen(b, ready, params).0 == SpecGen(b, s, params).0;
    assert SpecGen(b, ready, params).1.speculated == SpecGen(b, s, params).1.speculated;
  }

  /** After the first generation: the direct run, and the speculating one with its surplus. */
  predicate AfterTheDot(d: Exec, s: Exec) {
    && !d.raised && d.specTokens.None? && d.text == "a"
    && !s.raised && s.specTokens == Some(4) && s.text == "a" && s.speculated == ".bc"
  }

  lemma UpToTheDot(c: Config)
    requires !c.stream
    ensures var (b, x) := (RecitingBackend("a.bcd"), Params(4, OneStop(".")));
            AfterTheDot(Generate(c, b, Fresh([], None), "x", x), Generate(c, b, Fresh([], Some(4)), "x", x))
  {
    var (b, x) := (RecitingBackend("a.bcd"), Params(4, OneStop(".")));
    assert Reciting("a.bcd")("") == "a.bcd" && "a.bcd"[..4] == "a.bc";
    CharIsAt("a.bc", '.', 1);
    StopIsAt("a.bc", ["."], 0, 1);
    assert "a.bc"[..1] == "a" && "a.bc"[1..] == ".bc";
    GenerateDirectly(c, b, Reciting("a.bcd"), Fresh([], None), "x", x);
    GenerateSpeculating(c, b, Fresh([], Some(4)), "x", x);
    ConcatAssociative("a", "", "");
  }

  lemma PastTheDot(c: Config, d: Exec, s: Exec)
    requires !c.stream && AfterTheDot(d, s)
    ensures var (b, y) := (RecitingBackend("a.bcd"), Params(4, ManyStops([])));
            Generate(c, b, d, "y", y).text == "a.bcd" && Generate(c, b, s, "y", y).text == "a.bc"
  {
    var (b, y) := (RecitingBackend("a.bcd"), Params(4, ManyStops([])));
    assert Reply(Reciting("a.bcd")("a"), y) == ".bcd" by {
      assert Reciting("a.bcd")("a") == ".bcd";
      NoStops(".bcd");
    }
    assert SpecGen(b, s, y).0 == ".bc" by {
      NoStops(".bc");
    }
    GenerateDirectly(c, b, Reciting("a.bcd"), d, "y", y);
    GenerateSpeculating(c, b, s, "y", y);
    assert "a" + ".bcd" == "a.bcd" && "a" + ".bc" == "a.bc";
  }

  /** The first generation leaves a short surplus; the second returns it as it is, although the model would have written more. */
  lemma ShortSurplusShortensTheRun(c: Config)
    requires !c.stream
    ensures var (b, x, y) := (RecitingBackend("a.bcd"), Params(4, OneStop(".")), Params(4, ManyStops([])));
            var (d, s) := (Generate(c, b, Fresh([], None), "x", x), Generate(c, b, Fresh([], Some(4)), "x", x));
            Generate(c, b, d, "y", y).text == "a.bcd" && Generate(c, b, s, "y", y).text == "a.bc"
  {
    var (b, x) := (RecitingBackend("a.bcd"), Params(4, OneStop(".")));
    UpToTheDot(c);
    PastTheDot(c, Generate(c, b, Fresh([], None), "x", x), Generate(c, b, Fresh([], Some(4)), "x", x));
  }

  /** The commoner failure: an empty stop list, the default of a run, returns all of an enlarged request. */
  lemma EnlargedRequestOverruns(c: Config)
    requires !c.stream
    ensures var (b, x) := (RecitingBackend("abcd"), Params(2, ManyStops([])));
            && Generate(c, b, Fresh([], None), "x", x).text == "ab"
            && Generate(c, b, Fresh([], Some(4)), "x", x).text == "abcd"
  {
    var (b, x) := (RecitingBackend("abcd"), Params(2, ManyStops([])));
    EnlargedReply();
    GenerateDirectly(c, b, Reciting("abcd"), Fresh([], None), "x", x);
    GenerateSpeculating(c, b, Fresh([], Some(4)), "x", x);
    ConcatAssociative("ab", "", "");
    ConcatAssociative("abcd", "", "");
  }

  lemma EnlargedReply()
    ensures Reply(Reciting("abcd")(""), Params(2, ManyStops([]))) == "ab"
    ensures SpecGen(RecitingBackend("abcd"), Fresh([], Some(4)), Params(2, ManyStops([]))).0 == "abcd"
  {
    assert Reciting("abcd")("") == "abcd" && "abcd"[..4] == "abcd" && "abcd"[..2] == "ab";
    NoStops("ab");
    NoStops("abcd");
  }

  /** With several stop strings it is not enough that one is found and ends within the request: a longer one can begin earlier. */
  lemma LongerStopIsMissed()
    ensures var (b, cont) := (RecitingBackend("b#c"), Reciting("b#c"));
            var (s, params) := (Fresh([], Some(3)).(speculated := "b#"), Params(3, ManyStops(["b#c", "#"])));
            && Surplus(cont, s) && FirstStop(Material(b, s, params), StopList(params.stop)) == 1
            && SpecGen(b, s, params).0 == "b" && Reply(cont(s.text), params) == ""
  {
    var stops := ["b#c", "#"];
    assert Reciting("b#c")("") == "b#c" && "b#c"[..3] == "b#c" && "b#c"[..2] == "b#" && "b#"[..1] == "b";
    assert OccursAt("b#c", stops[0], 0);
    StopIsAt("b#c", stops, 0, 0);
    CharIsAt("b#", '#', 1);
    assert stops[1] == "#";
    StopIsAt("b#", stops, 1, 1);
  }
}
