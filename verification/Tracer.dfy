/**
The tracer: an abstract interpreter that records the nodes a program appends, with its arguments unknown.
The constant texts before the first other node are the prefix sent to the backend's cache.
*/
module Tracer {
  import opened Options
  import opened Text
  import opened ChatTemplates
  import opened Ir
  import opened Programs

  /** `Stopped`: an exception that ends tracing quietly; `Failed`: one that leaves the extraction. */
  datatype Status = Live | Stopped | Failed

  datatype Trace = Trace(
    nodes: seq<Expr>,
    messages: seq<Message>,
    curRole: Option<string>,
    vars: set<string>,
    status: Status)

  /** The arguments of a program, and those already bound. */
  datatype Signature = Signature(names: set<string>, bound: map<string, string>)

  datatype Program = Program(sig: Signature, body: seq<Stmt>)

  function Untraced(): Trace { Trace([], [], None, {}, Live) }

  function AppendNode(tr: Trace, e: Expr): Trace { tr.(nodes := tr.nodes + [e]) }

  function TraceFill(tr: Trace, text: string): Trace { AppendNode(tr, ConstantText(text)) }

  function TraceEnterRole(t: ChatTemplate, tr: Trace, role: string): Trace {
    TraceFill(tr.(curRole := Some(role)), t.PrefixAndSuffix(role, tr.messages).0)
  }

  function TraceRoleEnd(t: ChatTemplate, tr: Trace, role: string): Trace {
    var filled := TraceFill(tr, t.PrefixAndSuffix(role, tr.messages).1);
    filled.(messages := tr.messages + [Message(role, Some(""), [])], curRole := None)
  }

  function TraceReady(t: ChatTemplate, tr: Trace, role: string): Trace {
    if tr.messages == [] && role != "system" && t.defaultSystem.Some? && t.defaultSystem.value != "" then
      TraceRoleEnd(t, TraceFill(TraceEnterRole(t, tr, "system"), t.defaultSystem.value), "system")
    else tr
  }

  function TraceRoleBegin(t: ChatTemplate, tr: Trace, role: string): Trace {
    if tr.curRole.Some? then tr.(status := Failed)
    else TraceEnterRole(t, TraceReady(t, tr, role), role)
  }

  function Decimal(n: nat): string {
    (if n < 10 then "" else Decimal(n / 10)) + ["0123456789"[n % 10]]
  }

  /** The number a decimal numeral stands for. */
  function Numeral(s: string): int {
    if s == "" then 0 else 10 * Numeral(s[..|s| - 1]) + (s[|s| - 1] as int - '0' as int)
  }

  /** The number in the name of an unnamed select can be read back, so no two of them share a name. */
  lemma {:induction false} DecimalReadsBack(n: nat)
    ensures Numeral(Decimal(n)) == n
  {
    var front := if n < 10 then "" else Decimal(n / 10);
    DigitValue(n % 10);
    NumeralSnoc(front, "0123456789"[n % 10]);
    if n >= 10 {
      DecimalReadsBack(n / 10);
    }
  }

  lemma DigitValue(d: nat)
    requires d < 10
    ensures "0123456789"[d] as int - '0' as int == d
  {}

  lemma NumeralSnoc(front: string, c: char)
    ensures Numeral(front + [c]) == 10 * Numeral(front) + (c as int - '0' as int)
  {
    assert (front + [c])[..|front|] == front;
  }

  function TraceExecute(t: ChatTemplate, tr: Trace, e: Expr): Trace
    decreases e, 1
  {
    if !tr.status.Live? then tr
    else
      match e
      case ConstantText(text) => TraceFill(tr, text)
      case Gen(name, _) => AppendNode(tr.(vars := tr.vars + {name}), e)
      case Select(name, _) =>
        var known := if name.Some? then name.value else "select_" + Decimal(|tr.vars|);
        AppendNode(tr.(vars := tr.vars + {known}), e)
      case ExprList(items) => TraceAll(t, tr, items)
      case RoleBegin(role) => TraceRoleBegin(t, tr, role)
      case RoleEnd(role) => TraceRoleEnd(t, tr, role)
      case VarScopeEnd(name) => tr.(vars := tr.vars + {name})
      // A scope begin has no handler; any other node ends the tracing of a prefix.
      case _ => tr.(status := Stopped)
  }

  function TraceAll(t: ChatTemplate, tr: Trace, es: seq<Expr>): Trace
    decreases es, 0
  {
    if es == [] then tr else TraceAll(t, TraceExecute(t, tr, es[0]), es[1..])
  }

  /** What `str` makes of an unbound argument. */
  function Placeholder(name: string): string { "Argument(name=" + name + ", value=None)" }

  /** `str(name)` of an argument, which only formatting refuses. */
  function StrOf(name: string): Py { Derived(name, text => text, Placeholder(name)) }

  /** The value of an expression while tracing, or None for a KeyError. */
  function TraceEval(p: Signature, vars: set<string>, py: Py): Option<PyVal> {
    match py
    case Lit(text) => Some(PStr(text))
    case Arg(name) => Some(if name in p.bound then PStr(p.bound[name]) else PNode(Argument(name)))
    case Derived(name, f, placeholder) => Some(PStr(if name in p.bound then f(p.bound[name]) else placeholder))
    case Read(name) =>
      if name in p.bound then Some(PStr(p.bound[name]))
      else if name in p.names then Some(PNode(Argument(name)))
      else if name in vars then Some(PNode(Variable(name)))
      else None
    case Node(e) => Some(PNode(e))
    case Plus(left, right) =>
      var v := TraceEval(p, vars, left);
      var w := TraceEval(p, vars, right);
      if v.Some? && w.Some? then Some(Add(v.value, w.value)) else None
    case InRole(role, body) =>
      var v := TraceEval(p, vars, body);
      if v.Some? then Some(RoleBlock(role, v.value)) else None
  }

  function TraceStmt(t: ChatTemplate, p: Signature, tr: Trace, stmt: Stmt): Trace
    decreases stmt, 1
  {
    if !tr.status.Live? then tr
    else
      match stmt
      case Append(py) =>
        var v := TraceEval(p, tr.vars, py);
        if v.None? then tr.(status := Failed) else TraceExecute(t, tr, ToExpr(v.value))
      case RoleCall(role, py) =>
        // The tracer has no stream executor to submit to.
        tr.(status := if TraceEval(p, tr.vars, py).None? then Failed else Stopped)
      case IfArg(name, thn, els) =>
        if name !in p.bound then tr.(status := Stopped)
        else TraceStmts(t, p, tr, if p.bound[name] != "" then thn.stmts else els.stmts)
      case IfArgMeets(name, test, placeholder, thn, els) =>
        TraceStmts(t, p, tr, if (if name in p.bound then test(p.bound[name]) else placeholder) then thn.stmts else els.stmts)
      case IfVarIs(name, lit, thn, els) =>
        var v := TraceEval(p, tr.vars, Read(name));
        if v.None? then tr.(status := Failed)
        else TraceStmts(t, p, tr, if v.value == PStr(lit) then thn.stmts else els.stmts)
      case ForkJoin(kids, _) => tr.(status := if kids == [] then Failed else Stopped)
  }

  function TraceStmts(t: ChatTemplate, p: Signature, tr: Trace, stmts: seq<Stmt>): Trace
    decreases stmts, 0
  {
    if stmts == [] then tr else TraceStmts(t, p, TraceStmt(t, p, tr, stmts[0]), stmts[1..])
  }

  // ---------- The extracted prefix ----------

  function Flatten(e: Expr): seq<Expr>
    decreases e, 1
  {
    if e.ExprList? then FlattenAll(e.items) else [e]
  }

  function FlattenAll(es: seq<Expr>): seq<Expr>
    decreases es, 0
  {
    if es == [] then [] else Flatten(es[0]) + FlattenAll(es[1..])
  }

  /** The constant texts before the first other node. */
  function ConstPrefix(nodes: seq<Expr>): string {
    if nodes == [] || !nodes[0].ConstantText? then ""
    else nodes[0].value + ConstPrefix(nodes[1..])
  }

  /** `extract_prefix_by_tracing`, or None when an exception leaves it. */
  function ExtractedPrefix(t: ChatTemplate, p: Program): Option<string> {
    var tr := TraceStmts(t, p.sig, Untraced(), p.body);
    if tr.status.Failed? then None else Some(ConstPrefix(FlattenAll(tr.nodes)))
  }

  // ---------- The tracer object ----------

  class TracerProgramState {
    const template: ChatTemplate
    var nodes: seq<Expr>
    var messages: seq<Message>
    var curRole: Option<string>
    var variables: set<string>
    var status: Status

    ghost function View(): Trace
      reads this
    {
      Trace(nodes, messages, curRole, variables, status)
    }

    constructor (template: ChatTemplate)
      ensures View() == Untraced() && this.template == template
    {
      this.template := template;
      nodes, messages, curRole, variables, status := [], [], None, {}, Live;
    }

    method ExecuteFill(text: string)
      modifies this
      ensures View() == TraceFill(old(View()), text)
    {
      nodes := nodes + [ConstantText(text)];
    }

    method EnterRole(role: string)
      modifies this
      ensures View() == TraceEnterRole(template, old(View()), role)
    {
      curRole := Some(role);
      ExecuteFill(template.PrefixAndSuffix(role, messages).0);
    }

    method ExecuteRoleEnd(role: string)
      modifies this
      ensures View() == TraceRoleEnd(template, old(View()), role)
    {
      ExecuteFill(template.PrefixAndSuffix(role, messages).1);
      messages := messages + [Message(role, Some(""), [])];
      curRole := None;
    }

    method ExecuteRoleBegin(role: string)
      modifies this
      ensures View() == TraceRoleBegin(template, old(View()), role)
    {
      if curRole.Some? {
        status := Failed;
        return;
      }
      var default := template.defaultSystem;
      if messages == [] && role != "system" && default.Some? && default.value != "" {
        EnterRole("system");
        ExecuteFill(default.value);
        ExecuteRoleEnd("system");
      }
      EnterRole(role);
    }

    method Execute(e: Expr)
      modifies this
      ensures View() == TraceExecute(template, old(View()), e)
      decreases e, 1
    {
      if !status.Live? {
        return;
      }
      match e
      case ConstantText(text) => ExecuteFill(text);
      case Gen(name, _) =>
        variables := variables + {name};
        nodes := nodes + [e];
      case Select(name, _) =>
        variables := variables + {if name.Some? then name.value else "select_" + Decimal(|variables|)};
        nodes := nodes + [e];
      case ExprList(items) => ExecuteItems(items);
      case RoleBegin(role) => ExecuteRoleBegin(role);
      case RoleEnd(role) => ExecuteRoleEnd(role);
      case VarScopeEnd(name) => variables := variables + {name};
      case _ => status := Stopped;
    }

    method ExecuteItems(items: seq<Expr>)
      modifies this
      ensures View() == TraceAll(template, old(View()), items)
      decreases items, 0
    {
      for i := 0 to |items|
        invariant TraceAll(template, View(), items[i..]) == TraceAll(template, old(View()), items)
      {
        assert items[i..][1..] == items[i + 1..];
        Execute(items[i]);
      }
    }

    method ExtractPrefix() returns (prefix: string)
      ensures prefix == ConstPrefix(FlattenAll(nodes))
    {
      var flat := FlattenAll(nodes);
      prefix := "";
      var i := 0;
      while i < |flat|
        invariant 0 <= i <= |flat|
        invariant prefix + ConstPrefix(flat[i..]) == ConstPrefix(flat)
      {
        if !flat[i].ConstantText? {
          break;
        }
        assert flat[i..][1..] == flat[i + 1..];
        ConcatAssociative(prefix, flat[i].value, ConstPrefix(flat[i + 1..]));
        prefix := prefix + flat[i].value;
        i := i + 1;
      }
    }
  }
}
