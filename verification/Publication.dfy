/** What other threads may rely on: a variable whose event is set is final, and a scope variable is the text of its scope. */
module Publication {
  import opened Options
  import opened Text
  import opened Ir
  import opened Executor
  import opened WorkerSteps
  import opened WorkerQueue

  /** The variables a step still has to store. */
  function Writes(i: Instr): set<string> {
    match i
    case Whole(VarScopeBegin(name)) => {name}
    case AskGen(name, _) => {name}
    case AskSelect(Some(name), _) => {name}
    case Store(name, _) => {name}
    case Extend(name, _) => {name}
    case _ => {}
  }

  function Touches(i: Instr): set<string> {
    if i.SetFlag? then {i.name} else Writes(i)
  }

  /** The variables after which a step leaves nothing more to be done. */
  function Completes(i: Instr): set<string> {
    if i.Store? || i.Extend? then {} else Touches(i)
  }

  function WrittenBy(l: seq<Instr>): set<string> {
    if l == [] then {} else Writes(l[0]) + WrittenBy(l[1..])
  }

  function TouchedBy(l: seq<Instr>): set<string> {
    if l == [] then {} else Touches(l[0]) + TouchedBy(l[1..])
  }

  function CompletedBy(l: seq<Instr>): set<string> {
    if l == [] then {} else Completes(l[0]) + CompletedBy(l[1..])
  }

  /** No step touches a variable that an earlier one completes. */
  predicate Separated(l: seq<Instr>) {
    l == [] || (Completes(l[0]) !! TouchedBy(l[1..]) && Separated(l[1..]))
  }

  predicate Proper(i: Instr) {
    match i
    case Whole(e) => !e.ExprList? && !e.Gen? && !e.Select? && !e.VarScopeEnd?
    case Store(_, value) => !value.Pos?
    case _ => true
  }

  predicate AllProper(l: seq<Instr>) {
    forall i :: i in l ==> Proper(i)
  }

  /** The variables that hold more than the start of an open scope. */
  function Solid(variables: map<string, Value>): set<string> {
    set name | name in variables && !variables[name].Pos?
  }

  /** No event is set before its variable is stored; the variables in `have` already are. */
  predicate Backed(l: seq<Instr>, have: set<string>) {
    l == [] ||
    ((l[0].SetFlag? ==> l[0].name in have) && Backed(l[1..], have + (if l[0].Store? then {l[0].name} else {})))
  }

  // ---------- These properties over concatenations ----------

  lemma {:induction false} SetsAppend(xs: seq<Instr>, ys: seq<Instr>)
    ensures WrittenBy(xs + ys) == WrittenBy(xs) + WrittenBy(ys)
    ensures TouchedBy(xs + ys) == TouchedBy(xs) + TouchedBy(ys)
    ensures CompletedBy(xs + ys) == CompletedBy(xs) + CompletedBy(ys)
    ensures WrittenBy(xs) <= TouchedBy(xs) && CompletedBy(xs) <= TouchedBy(xs)
  {
    if xs == [] {
      assert xs + ys == ys;
    } else {
      assert (xs + ys)[1..] == xs[1..] + ys;
      SetsAppend(xs[1..], ys);
    }
  }

  lemma {:induction false} SeparatedAppend(xs: seq<Instr>, ys: seq<Instr>)
    ensures Separated(xs + ys) <==> Separated(xs) && Separated(ys) && CompletedBy(xs) !! TouchedBy(ys)
  {
    if xs == [] {
      assert xs + ys == ys;
    } else {
      assert (xs + ys)[1..] == xs[1..] + ys;
      SeparatedAppend(xs[1..], ys);
      SetsAppend(xs[1..], ys);
    }
  }

  lemma {:induction false} BackedBy(l: seq<Instr>, have: set<string>, more: set<string>)
    requires Backed(l, have) && have * TouchedBy(l) <= more
    ensures Backed(l, more)
    decreases |l|
  {
    if l != [] {
      var stored := if l[0].Store? then {l[0].name} else {};
      BackedBy(l[1..], have + stored, more + stored);
    }
  }

  lemma {:induction false} BackedAppend(xs: seq<Instr>, ys: seq<Instr>, have: set<string>)
    requires Backed(xs, have) && Backed(ys, {})
    ensures Backed(xs + ys, have)
    decreases |xs|
  {
    if xs == [] {
      assert xs + ys == ys;
      BackedBy(ys, {}, have);
    } else {
      assert (xs + ys)[1..] == xs[1..] + ys;
      BackedAppend(xs[1..], ys, have + (if xs[0].Store? then {xs[0].name} else {}));
    }
  }

  /** A list of steps that can run in any state: nothing is announced twice, no event is set too early. */
  ghost predicate Sound(l: seq<Instr>) {
    Separated(l) && AllProper(l) && Backed(l, {})
  }

  lemma SoundAppend(xs: seq<Instr>, ys: seq<Instr>)
    requires Sound(xs) && Sound(ys) && CompletedBy(xs) !! TouchedBy(ys)
    ensures Sound(xs + ys)
  {
    SeparatedAppend(xs, ys);
    BackedAppend(xs, ys, {});
  }

  lemma SoundOne(i: Instr)
    requires Proper(i) && !i.SetFlag?
    ensures Sound([i]) && TouchedBy([i]) == Touches(i) && CompletedBy([i]) == Completes(i)
  {
    assert [i][1..] == [];
  }

  // ---------- Compiled expressions ----------

  /** No variable is announced twice within an expression. */
  predicate Apart(e: Expr)
    decreases e, 1
  {
    e.ExprList? ==> AllApart(e.items)
  }

  predicate AllApart(es: seq<Expr>)
    decreases es, 0
  {
    es == [] || (Apart(es[0]) && Announced(es[0]) !! AnnouncedAll(es[1..]) && AllApart(es[1..]))
  }

  lemma {:induction false} CompiledSound(e: Expr)
    requires Apart(e)
    ensures Sound(Compile(e)) && TouchedBy(Compile(e)) == CompletedBy(Compile(e)) == Announced(e)
    decreases e, 1
  {
    match e
    case ExprList(items) => AllCompiledSound(items);
    case _ => SoundOne(Compile(e)[0]);
  }

  lemma {:induction false} AllCompiledSound(es: seq<Expr>)
    requires AllApart(es)
    ensures Sound(CompileAll(es)) && TouchedBy(CompileAll(es)) == CompletedBy(CompileAll(es)) == AnnouncedAll(es)
    decreases es, 0
  {
    if es != [] {
      CompiledSound(es[0]);
      AllCompiledSound(es[1..]);
      SoundAppend(Compile(es[0]), CompileAll(es[1..]));
      SetsAppend(Compile(es[0]), CompileAll(es[1..]));
    }
  }

  // ---------- The steps a request turns into ----------

  lemma {:induction false} ChunksSound(name: string, chunks: seq<string>)
    ensures Sound(Chunks(name, chunks)) && TouchedBy(Chunks(name, chunks)) <= {name} && CompletedBy(Chunks(name, chunks)) == {}
  {
    if chunks != [] {
      ChunksSound(name, chunks[1..]);
      SoundOne(Write(chunks[0]));
      SoundOne(Extend(name, chunks[0]));
      var (first, second, rest) := ([Write(chunks[0])], [Extend(name, chunks[0])], Chunks(name, chunks[1..]));
      SoundAppend(second, rest);
      SetsAppend(second, rest);
      SoundAppend(first, second + rest);
      SetsAppend(first, second + rest);
      assert Chunks(name, chunks) == first + (second + rest);
    }
  }

  /** Storing, then anything harmless, then setting the event, then anything untouched. */
  lemma StoredThenSet(name: string, value: Value, middle: seq<Instr>, last: seq<Instr>)
    requires !value.Pos? && Sound(middle) && Sound(last)
    requires TouchedBy(middle) <= {name} && CompletedBy(middle) == {} && TouchedBy(last) == {}
    ensures var l := [Store(name, value)] + (middle + ([SetFlag(name)] + last));
            Sound(l) && TouchedBy(l) <= {name}
  {
    var setThen := [SetFlag(name)] + last;
    SetThen(name, last);
    SetsAppend(middle, setThen);
    SeparatedAppend(middle, setThen);
    ProperAppend(middle, setThen);
    BackedBy(middle, {}, {name});
    BackedJoin(middle, setThen, {name});
    StoreThen(name, value, middle + setThen);
  }

  lemma SetThen(name: string, last: seq<Instr>)
    requires Sound(last) && TouchedBy(last) == {}
    ensures var l := [SetFlag(name)] + last;
            Separated(l) && AllProper(l) && Backed(l, {name}) && TouchedBy(l) == {name}
  {
    Cons(SetFlag(name), last);
    BackedBy(last, {}, {name});
  }

  lemma StoreThen(name: string, value: Value, l: seq<Instr>)
    requires !value.Pos? && Separated(l) && AllProper(l) && Backed(l, {name}) && TouchedBy(l) <= {name}
    ensures Sound([Store(name, value)] + l) && TouchedBy([Store(name, value)] + l) <= {name}
  {
    Cons(Store(name, value), l);
    assert {} + {name} == {name};
  }

  lemma ProperAppend(xs: seq<Instr>, ys: seq<Instr>)
    ensures AllProper(xs + ys) <==> AllProper(xs) && AllProper(ys)
  {
    assert forall i :: i in xs || i in ys <==> i in xs + ys;
  }

  lemma Cons(i: Instr, l: seq<Instr>)
    ensures TouchedBy([i] + l) == Touches(i) + TouchedBy(l) && CompletedBy([i] + l) == Completes(i) + CompletedBy(l)
    ensures Separated([i] + l) <==> Completes(i) !! TouchedBy(l) && Separated(l)
    ensures AllProper([i] + l) <==> Proper(i) && AllProper(l)
    ensures i.SetFlag? || forall have :: Backed([i] + l, have) <==> Backed(l, have + (if i.Store? then {i.name} else {}))
    ensures i.SetFlag? ==> forall have :: Backed([i] + l, have) <==> i.name in have && Backed(l, have)
  {
    assert ([i] + l)[1..] == l;
    assert forall have: set<string> :: have + {} == have;
    assert i in [i] + l && forall j :: j in l ==> j in [i] + l;
  }

  lemma {:induction false} BackedJoin(xs: seq<Instr>, ys: seq<Instr>, have: set<string>)
    requires Backed(xs, have) && Backed(ys, have)
    ensures Backed(xs + ys, have)
    decreases |xs|
  {
    if xs == [] {
      assert xs + ys == ys;
    } else {
      assert (xs + ys)[1..] == xs[1..] + ys;
      var more := have + (if xs[0].Store? then {xs[0].name} else {});
      BackedBy(ys, have, more);
      BackedJoin(xs[1..], ys, more);
    }
  }

  /** What a step turns into concerns only the variable of that step. */
  lemma MoreSound(c: Config, b: Backend, s: Exec, i: Instr)
    requires Proper(i) && !i.CloseScope?
    ensures var more := Step(c, b, s, i).1; Sound(more) && TouchedBy(more) <= Touches(i)
  {
    var more := Step(c, b, s, i).1;
    if i.AskGen? && more != [] {
      if c.stream {
        var chunks := Chunks(i.name, b.generateStream(Ask(s, ForStream(i.params))));
        ChunksSound(i.name, b.generateStream(Ask(s, ForStream(i.params))));
        StoredThenSet(i.name, Str(""), chunks, []);
        ConcatAssociative([Store(i.name, Str(""))], chunks, [SetFlag(i.name)]);
        ConcatAssociative([SetFlag(i.name)], [], []);
      } else {
        var (text, value) := (more[0].text, more[1].value);
        StoredThenSet(i.name, value, [], []);
        SoundOne(Write(text));
        var rest := [Store(i.name, value)] + ([] + ([SetFlag(i.name)] + []));
        SoundAppend([Write(text)], rest);
        SetsAppend([Write(text)], rest);
        assert more == [Write(text)] + rest;
      }
    } else if i.AskSelect? {
      var d := b.select(Ask(s, ForSelect(i.choices)));
      SoundOne(Write(d));
      if i.decided.Some? {
        StoredThenSet(i.decided.value, Str(d), [], [Write(d)]);
        assert more == [Store(i.decided.value, Str(d))] + ([] + ([SetFlag(i.decided.value)] + [Write(d)]));
      }
    }
  }

  // ---------- The invariant ----------

  /** A variable whose event is set, or whose scope is open. */
  predicate Settled(s: Exec, name: string) {
    name in s.events && (s.events[name] || (name in s.variables && s.variables[name].Pos?))
  }

  /** The steps `l` are still to come. */
  ghost predicate PubInv(s: Exec, l: seq<Instr>) {
    && Separated(l) && AllProper(l) && Backed(l, Solid(s.variables))
    && TouchedBy(l) <= s.events.Keys
    && (forall name :: Settled(s, name) ==> name !in TouchedBy(l))
    && (forall name :: name in s.events && s.events[name] ==> name in Solid(s.variables))
    && (forall name :: name in s.variables && s.variables[name].Pos? ==> name in s.events)
  }

  /** Published variables stay published and keep their value. */
  ghost predicate Stable(s: Exec, t: Exec) {
    forall name :: name in s.events && s.events[name] ==>
      name in s.variables && name in t.events && t.events[name] && name in t.variables && t.variables[name] == s.variables[name]
  }

  lemma WholeKeepsVariables(c: Config, b: Backend, s: Exec, e: Expr)
    requires Proper(Whole(e)) && !e.VarScopeBegin?
    ensures Execute(c, b, s, e).variables == s.variables && Execute(c, b, s, e).events == s.events
  {
    match e
    case ConcateAndAppend(kids) => KvKeepsVariables(s, kids, |s.text|);
    case RoleBegin(role) => assert Ready(c, s, role).variables == s.variables && Ready(c, s, role).events == s.events;
    case _ =>
  }

  lemma {:induction false} KvKeepsVariables(s: Exec, kids: seq<Kid>, origin: nat)
    ensures var t := ConcatenateKv(s, kids, origin); t.variables == s.variables && t.events == s.events
    decreases |kids|
  {
    if kids != [] && kids[0].forkPos == Some(origin) {
      KvKeepsVariables(s.(text := s.text + Addition(kids[0])), kids[1..], origin);
    }
  }

  /** What one step does to variables and events. */
  lemma StepEffect(c: Config, b: Backend, s: Exec, i: Instr)
    requires Proper(i) && !Step(c, b, s, i).0.raised
    ensures var t := Step(c, b, s, i).0;
            && t.events == (if i.SetFlag? then s.events[i.name := true] else s.events)
            && (i.SetFlag? ==> i.name in s.events)
            && t.variables == (match i
                               case Whole(VarScopeBegin(name)) => s.variables[name := Pos(|s.text|)]
                               case Store(name, value) => s.variables[name := value]
                               case Extend(name, chunk) => t.variables
                               case CloseScope(name) => t.variables
                               case _ => s.variables)
            && (i.Extend? || i.CloseScope? ==>
                  i.name in s.variables && t.variables.Keys == s.variables.Keys && !t.variables[i.name].Pos? &&
                  forall n :: n in s.variables && n != i.name ==> t.variables[n] == s.variables[n])
            && (i.CloseScope? ==> s.variables[i.name].Pos?)
            && (i.Extend? ==> !s.variables[i.name].Pos?)
  {
    if i.Whole? && !i.e.VarScopeBegin? {
      WholeKeepsVariables(c, b, s, i.e);
    }
  }

  lemma HeadOfInv(s: Exec, i: Instr, rest: seq<Instr>)
    requires PubInv(s, [i] + rest)
    ensures Proper(i) && Completes(i) !! TouchedBy(rest) && Separated(rest) && AllProper(rest)
    ensures Touches(i) + TouchedBy(rest) <= s.events.Keys
    ensures forall name :: Settled(s, name) ==> name !in Touches(i) && name !in TouchedBy(rest)
    ensures i.SetFlag? ==> i.name in Solid(s.variables)
    ensures Backed(rest, Solid(s.variables) + (if i.Store? then {i.name} else {}))
  {
    Cons(i, rest);
    assert Solid(s.variables) + {} == Solid(s.variables);
  }

  /** The variables that hold a value after a step. */
  lemma SolidAfter(c: Config, b: Backend, s: Exec, i: Instr)
    requires Proper(i) && !Step(c, b, s, i).0.raised
    ensures var solid := Solid(s.variables) + (if i.Store? || i.CloseScope? then {i.name} else {});
            Solid(Step(c, b, s, i).0.variables) == if i.Whole? && i.e.VarScopeBegin? then solid - {i.e.name} else solid
  {
    StepEffect(c, b, s, i);
  }

  /** Only requests and the end of a scope turn into further steps. */
  lemma MoreIsNothing(c: Config, b: Backend, s: Exec, i: Instr)
    ensures !i.AskGen? && !i.AskSelect? && !i.CloseScope? ==> Step(c, b, s, i).1 == []
  {}

  /** What is settled after a step was settled before it, or is completed by it. */
  lemma SettledAfter(c: Config, b: Backend, s: Exec, i: Instr, name: string)
    requires Proper(i) && !Step(c, b, s, i).0.raised && Settled(Step(c, b, s, i).0, name)
    ensures Settled(s, name) || name in Completes(i)
    ensures i.CloseScope? ==> name != i.name || s.events[name]
  {
    StepEffect(c, b, s, i);
  }

  /** The part of the invariant about the lists of steps. */
  lemma StepKeepsBacked(c: Config, b: Backend, s: Exec, i: Instr, rest: seq<Instr>)
    requires PubInv(s, [i] + rest) && !Step(c, b, s, i).0.raised
    ensures var (t, more) := Step(c, b, s, i); Backed(more + rest, Solid(t.variables))
  {
    HeadOfInv(s, i, rest);
    SolidAfter(c, b, s, i);
    MoreIsNothing(c, b, s, i);
    var (t, more) := Step(c, b, s, i);
    BackedBy(rest, Solid(s.variables) + (if i.Store? then {i.name} else {}), Solid(t.variables));
    if i.CloseScope? {
      Cons(SetFlag(i.name), rest);
    } else if more != [] {
      MoreSound(c, b, s, i);
      BackedBy(more, {}, Solid(t.variables));
      BackedJoin(more, rest, Solid(t.variables));
    } else {
      ConcatAssociative(rest, [], []);
    }
  }

  lemma StepKeepsSeparated(c: Config, b: Backend, s: Exec, i: Instr, rest: seq<Instr>)
    requires PubInv(s, [i] + rest) && !Step(c, b, s, i).0.raised
    ensures var (t, more) := Step(c, b, s, i);
            && Separated(more + rest) && AllProper(more + rest)
            && TouchedBy(more + rest) <= TouchedBy(rest) + (if i.CloseScope? then {i.name} else if more == [] then {} else Touches(i))
  {
    HeadOfInv(s, i, rest);
    var (t, more) := Step(c, b, s, i);
    if i.CloseScope? {
      StepEffect(c, b, s, i);
      assert Settled(s, i.name);
      Cons(SetFlag(i.name), rest);
    } else if more == [] {
      ConcatAssociative(rest, [], []);
    } else {
      MoreIsNothing(c, b, s, i);
      MoreSound(c, b, s, i);
      SetsAppend(more, []);
      SetsAppend(more, rest);
      SeparatedAppend(more, rest);
    }
  }

  /** Every step of the worker that does not fail keeps the invariant, and leaves what is published alone. */
  lemma StepKeepsInv(c: Config, b: Backend, s: Exec, i: Instr, rest: seq<Instr>)
    requires PubInv(s, [i] + rest) && !Step(c, b, s, i).0.raised
    ensures var (t, more) := Step(c, b, s, i); PubInv(t, more + rest) && Stable(s, t)
  {
    var (t, more) := Step(c, b, s, i);
    HeadOfInv(s, i, rest);
    StepEffect(c, b, s, i);
    SolidAfter(c, b, s, i);
    MoreIsNothing(c, b, s, i);
    StepKeepsBacked(c, b, s, i, rest);
    StepKeepsSeparated(c, b, s, i, rest);
    forall name | Settled(t, name)
      ensures name !in TouchedBy(more + rest)
    {
      SettledAfter(c, b, s, i, name);
      if i.AskGen? || i.AskSelect? {
        assert t.variables == s.variables && t.events == s.events;
      }
    }
    forall name | name in s.events && s.events[name]
      ensures name !in Touches(i) && name in Solid(s.variables)
    {
      assert Settled(s, name);
    }
  }

  // ---------- Over whole runs ----------

  function QueueSteps(queue: seq<Item>): seq<Instr> {
    if queue == [] then []
    else StepsOf(queue[0]) + QueueSteps(queue[1..])
  }

  function StepsOf(item: Item): seq<Instr> {
    if item.Task? then Compile(item.e) else []
  }

  function InProgress(w: World): seq<Instr> {
    if w.phase.Running? then w.phase.rest else []
  }

  function Announcing(w: World): seq<Instr> {
    if w.pending.Some? then Compile(w.pending.value) else []
  }

  /** Every step the worker has yet to take for what was announced. */
  function Coming(w: World): seq<Instr> {
    InProgress(w) + (QueueSteps(w.queue) + Announcing(w))
  }

  /** Distinct variable names: what is announced is new, and announced once. */
  ghost predicate TidyNext(c: Config, b: Backend, w: World, v: World) {
    && Next(c, b, w, v)
    && (w.pending.None? && v.pending.Some? ==>
          Apart(v.pending.value) && Announced(v.pending.value) !! w.es.events.Keys && Announced(v.pending.value) !! w.es.variables.Keys)
  }

  /** A run with distinct names, of an executor that did not inherit an open scope. */
  ghost predicate IsTidyRun(c: Config, b: Backend, ws: seq<World>) {
    && IsRun(c, b, ws)
    && (forall name :: name in ws[0].es.variables ==> !ws[0].es.variables[name].Pos?)
    && forall i :: 0 <= i < |ws| - 1 ==> TidyAt(c, b, ws, i)
  }

  ghost predicate TidyAt(c: Config, b: Backend, ws: seq<World>, i: nat)
    requires i + 1 < |ws|
  {
    TidyNext(c, b, ws[i], ws[i + 1])
  }

  lemma {:induction false} QueueStepsSnoc(queue: seq<Item>, item: Item)
    ensures QueueSteps(queue + [item]) == QueueSteps(queue) + StepsOf(item)
  {
    if queue == [] {
      assert (queue + [item])[1..] == [];
      ConcatAssociative(StepsOf(item), [], []);
    } else {
      assert (queue + [item])[1..] == queue[1..] + [item];
      QueueStepsSnoc(queue[1..], item);
      ConcatAssociative(StepsOf(queue[0]), QueueSteps(queue[1..]), StepsOf(item));
    }
  }

  /** Announcing new variables settles none of them. */
  lemma AnnounceSettles(s: Exec, names: set<string>, name: string)
    requires names !! s.events.Keys && names !! s.variables.Keys && Settled(InitEvents(s, names), name)
    ensures Settled(s, name) && name !in names
  {}

  lemma AnnouncedSteps(l: seq<Instr>, e: Expr, have: set<string>)
    requires Apart(e) && Announced(e) !! TouchedBy(l)
    requires Separated(l) && AllProper(l) && Backed(l, have)
    ensures var m := l + Compile(e);
            && Separated(m) && AllProper(m) && Backed(m, have)
            && TouchedBy(m) == TouchedBy(l) + Announced(e) && WrittenBy(m) <= WrittenBy(l) + Announced(e)
  {
    CompiledSound(e);
    SetsAppend(l, Compile(e));
    SetsAppend(Compile(e), []);
    SetsAppend(l, []);
    SeparatedAppend(l, Compile(e));
    ProperAppend(l, Compile(e));
    BackedAppend(l, Compile(e), have);
  }

  lemma AnnounceKeepsInv(s: Exec, l: seq<Instr>, e: Expr)
    requires PubInv(s, l) && Apart(e) && Announced(e) !! s.events.Keys && Announced(e) !! s.variables.Keys
    ensures PubInv(InitEvents(s, Announced(e)), l + Compile(e))
    ensures WrittenBy(l + Compile(e)) <= WrittenBy(l) + Announced(e)
  {
    AnnouncedSteps(l, e, Solid(s.variables));
    forall name | Settled(InitEvents(s, Announced(e)), name)
      ensures name !in TouchedBy(l + Compile(e))
    {
      AnnounceSettles(s, Announced(e), name);
    }
  }

  /** A step of either thread, seen as a step on what is still to come. */
  lemma ComingAfter(c: Config, b: Backend, w: World, v: World)
    requires Inv(w) && Next(c, b, w, v) && !v.es.raised
    ensures !w.es.raised
    ensures (v.es == w.es && Coming(v) == Coming(w))
            || (exists i, rest :: Coming(w) == [i] + rest && v.es == Step(c, b, w.es, i).0 && Coming(v) == Step(c, b, w.es, i).1 + rest)
            || (w.pending.None? && v.pending.Some? && v.es == InitEvents(w.es, Announced(v.pending.value))
                && Coming(v) == Coming(w) + Compile(v.pending.value))
  {
    if Works(c, b, w, v) {
      WorksComing(c, b, w, v);
    } else if w.pending.Some? {
      QueueStepsSnoc(w.queue, Task(w.pending.value));
      ConcatAssociative(QueueSteps(w.queue + [Task(w.pending.value)]), [], []);
    } else if v == Put(w, Stop) {
      QueueStepsSnoc(w.queue, Stop);
      ConcatAssociative(QueueSteps(w.queue), [], []);
    } else {
      ConcatAssociative(QueueSteps(w.queue), [], []);
      ConcatAssociative(InProgress(w), QueueSteps(w.queue), Announcing(v));
    }
  }

  lemma WorksComing(c: Config, b: Backend, w: World, v: World)
    requires Inv(w) && Works(c, b, w, v) && !v.es.raised
    ensures !w.es.raised
    ensures (v.es == w.es && Coming(v) == Coming(w))
            || exists i, rest :: Coming(w) == [i] + rest && v.es == Step(c, b, w.es, i).0 && Coming(v) == Step(c, b, w.es, i).1 + rest
  {
    var after := Announcing(w);
    SucceedingIsNotFailing(w.outcomes);
    if w.phase.Getting? {
      ConcatAssociative(StepsOf(w.queue[0]), QueueSteps(w.queue[1..]), after);
    } else if w.phase.Running? && w.phase.rest != [] {
      RunningComing(c, b, w, v);
    }
  }

  lemma RunningComing(c: Config, b: Backend, w: World, v: World)
    requires Works(c, b, w, v) && w.phase.Running? && w.phase.rest != [] && !v.es.raised
    ensures var (i, rest) := (w.phase.rest[0], w.phase.rest[1..] + (QueueSteps(w.queue) + Announcing(w)));
            Coming(w) == [i] + rest && v.es == Step(c, b, w.es, i).0 && Coming(v) == Step(c, b, w.es, i).1 + rest
  {
    var (i, tail, later) := (w.phase.rest[0], w.phase.rest[1..], QueueSteps(w.queue) + Announcing(w));
    assert w.phase.rest == [i] + tail;
    ConcatAssociative([i], tail, later);
    ConcatAssociative(Step(c, b, w.es, i).1, tail, later);
  }

  lemma NextKeepsPublished(c: Config, b: Backend, w: World, v: World)
    requires Inv(w) && TidyNext(c, b, w, v) && !v.es.raised && PubInv(w.es, Coming(w))
    ensures PubInv(v.es, Coming(v)) && Stable(w.es, v.es)
  {
    ComingAfter(c, b, w, v);
    if v.es == w.es && Coming(v) == Coming(w) {
    } else if i, rest :| Coming(w) == [i] + rest && v.es == Step(c, b, w.es, i).0 && Coming(v) == Step(c, b, w.es, i).1 + rest {
      StepKeepsInv(c, b, w.es, i, rest);
    } else {
      AnnounceKeepsInv(w.es, Coming(w), v.pending.value);
    }
  }

  lemma {:induction false} PubInvAlways(c: Config, b: Backend, ws: seq<World>, i: nat)
    requires IsTidyRun(c, b, ws) && i < |ws| && !ws[i].es.raised
    ensures PubInv(ws[i].es, Coming(ws[i]))
  {
    if i > 0 {
      InvAlways(c, b, ws, i - 1);
      assert TidyAt(c, b, ws, i - 1);
      ComingAfter(c, b, ws[i - 1], ws[i]);
      PubInvAlways(c, b, ws, i - 1);
      NextKeepsPublished(c, b, ws[i - 1], ws[i]);
    } else {
      assert Coming(ws[0]) == [];
    }
  }

  lemma StableTransitive(s: Exec, t: Exec, u: Exec)
    requires Stable(s, t) && Stable(t, u)
    ensures Stable(s, u)
  {}

  /** Once the event of a variable is set, the variable holds a value, and neither changes in any later state of a run that does not fail. */
  lemma {:induction false} PublishedIsFinal(c: Config, b: Backend, ws: seq<World>, i: nat, j: nat)
    requires IsTidyRun(c, b, ws) && i <= j < |ws| && !ws[j].es.raised
    ensures !ws[i].es.raised && Stable(ws[i].es, ws[j].es)
    decreases j - i
  {
    if i < j {
      InvAlways(c, b, ws, j - 1);
      assert TidyAt(c, b, ws, j - 1);
      ComingAfter(c, b, ws[j - 1], ws[j]);
      PublishedIsFinal(c, b, ws, i, j - 1);
      PubInvAlways(c, b, ws, j - 1);
      NextKeepsPublished(c, b, ws[j - 1], ws[j]);
      StableTransitive(ws[i].es, ws[j - 1].es, ws[j].es);
    } else {
      PubInvAlways(c, b, ws, i);
    }
  }

  // ---------- Scopes ----------

  /** The worker takes step `i` between these two states. */
  ghost predicate Takes(c: Config, b: Backend, w: World, v: World, i: Instr) {
    Works(c, b, w, v) && w.phase.Running? && w.phase.rest != [] && w.phase.rest[0] == i
  }

  /** Nobody will write the variable again, and it still holds the start `p` of its scope or its scope was closed. */
  ghost predicate Held(w: World, name: string, p: nat) {
    && name in w.es.events && name !in WrittenBy(Coming(w))
    && name in w.es.variables && (w.es.variables[name] == Pos(p) || !w.es.variables[name].Pos?)
  }

  lemma StepKeepsHeld(c: Config, b: Backend, s: Exec, i: Instr, rest: seq<Instr>, name: string)
    requires PubInv(s, [i] + rest) && !Step(c, b, s, i).0.raised
    requires name in s.events && name in s.variables && name !in WrittenBy([i] + rest)
    ensures var (t, more) := Step(c, b, s, i);
            && name in t.events && name !in WrittenBy(more + rest)
            && name in t.variables && (t.variables[name] == s.variables[name] || !t.variables[name].Pos?)
  {
    var (t, more) := Step(c, b, s, i);
    HeadOfInv(s, i, rest);
    StepEffect(c, b, s, i);
    MoreIsNothing(c, b, s, i);
    SetsAppend([i], rest);
    SetsAppend(more, rest);
    SetsAppend(more, []);
    assert [i][1..] == [];
    if !i.CloseScope? {
      MoreSound(c, b, s, i);
    } else {
      assert more[1..] == [];
    }
  }

  lemma NextKeepsHeld(c: Config, b: Backend, w: World, v: World, name: string, p: nat)
    requires Inv(w) && TidyNext(c, b, w, v) && !v.es.raised && PubInv(w.es, Coming(w)) && Held(w, name, p)
    ensures Held(v, name, p) && w.es.text <= v.es.text
  {
    ComingAfter(c, b, w, v);
    if v.es == w.es && Coming(v) == Coming(w) {
    } else if i, rest :| Coming(w) == [i] + rest && v.es == Step(c, b, w.es, i).0 && Coming(v) == Step(c, b, w.es, i).1 + rest {
      StepKeepsHeld(c, b, w.es, i, rest, name);
      StepWrites(c, b, w.es, i);
    } else {
      AnnounceKeepsInv(w.es, Coming(w), v.pending.value);
    }
  }

  lemma StepWrites(c: Config, b: Backend, s: Exec, i: Instr)
    ensures s.text <= Step(c, b, s, i).0.text
  {
    if i.Whole? {
      ExecuteExtends(c, b, s, i.e);
    }
  }

  lemma NotRaisedBefore(c: Config, b: Backend, ws: seq<World>, i: nat, j: nat)
    requires IsTidyRun(c, b, ws) && i <= j < |ws| && !ws[j].es.raised
    ensures !ws[i].es.raised
  {
    PublishedIsFinal(c, b, ws, i, j);
  }

  ghost predicate HeldSince(w: World, v: World, name: string, p: nat) {
    Held(v, name, p) && w.es.text <= v.es.text
  }

  lemma HeldOnce(c: Config, b: Backend, ws: seq<World>, j: nat, name: string, p: nat)
    requires IsTidyRun(c, b, ws) && j + 1 < |ws| && !ws[j + 1].es.raised && Held(ws[j], name, p)
    ensures HeldSince(ws[j], ws[j + 1], name, p)
  {
    InvAlways(c, b, ws, j);
    assert TidyAt(c, b, ws, j);
    ComingAfter(c, b, ws[j], ws[j + 1]);
    PubInvAlways(c, b, ws, j);
    NextKeepsHeld(c, b, ws[j], ws[j + 1], name, p);
  }

  lemma HeldStill(w: World, u: World, v: World, name: string, p: nat)
    requires HeldSince(w, u, name, p) && HeldSince(u, v, name, p)
    ensures HeldSince(w, v, name, p)
  {}

  lemma {:induction false} HeldAlways(c: Config, b: Backend, ws: seq<World>, i: nat, j: nat, name: string, p: nat)
    requires IsTidyRun(c, b, ws) && i <= j < |ws| && !ws[j].es.raised && Held(ws[i], name, p)
    ensures HeldSince(ws[i], ws[j], name, p)
    decreases j - i
  {
    if i < j {
      NotRaisedBefore(c, b, ws, j - 1, j);
      HeldAlways(c, b, ws, i, j - 1, name, p);
      HeldOnce(c, b, ws, j - 1, name, p);
      HeldStill(ws[i], ws[j - 1], ws[j], name, p);
    }
  }

  /** After a scope begins, nobody writes its variable any more. */
  lemma BeginHolds(c: Config, b: Backend, ws: seq<World>, i: nat, name: string)
    requires IsTidyRun(c, b, ws) && i + 1 < |ws| && !ws[i + 1].es.raised
    requires Takes(c, b, ws[i], ws[i + 1], Whole(VarScopeBegin(name)))
    ensures Held(ws[i + 1], name, |ws[i].es.text|) && ws[i + 1].es.text == ws[i].es.text
  {
    InvAlways(c, b, ws, i);
    ComingAfter(c, b, ws[i], ws[i + 1]);
    RunningComing(c, b, ws[i], ws[i + 1]);
    PubInvAlways(c, b, ws, i);
    var rest := ws[i].phase.rest[1..] + (QueueSteps(ws[i].queue) + Announcing(ws[i]));
    HeadOfInv(ws[i].es, Whole(VarScopeBegin(name)), rest);
    ConcatAssociative(rest, [], []);
    SetsAppend(rest, []);
  }

  /** In every interleaving, a scope variable is closed with exactly the text written between the begin and the end of its scope. */
  lemma ScopeHoldsWhatWasWritten(c: Config, b: Backend, ws: seq<World>, i: nat, j: nat, name: string)
    requires IsTidyRun(c, b, ws) && i < j && j + 1 < |ws| && !ws[j + 1].es.raised
    requires Takes(c, b, ws[i], ws[i + 1], Whole(VarScopeBegin(name)))
    requires Takes(c, b, ws[j], ws[j + 1], CloseScope(name))
    ensures name in ws[j + 1].es.variables && ws[j + 1].es.variables[name].Str?
    ensures ws[j].es.text == ws[i].es.text + ws[j + 1].es.variables[name].text
  {
    NotRaisedBefore(c, b, ws, i + 1, j + 1);
    NotRaisedBefore(c, b, ws, j, j + 1);
    BeginHolds(c, b, ws, i, name);
    HeldAlways(c, b, ws, i + 1, j, name, |ws[i].es.text|);
    CloseReads(c, b, ws[j], ws[j + 1], name, ws[i].es.text);
  }

  lemma CloseReads(c: Config, b: Backend, w: World, v: World, name: string, start: string)
    requires Takes(c, b, w, v, CloseScope(name)) && !v.es.raised
    requires start <= w.es.text && name in w.es.variables
    requires w.es.variables[name] == Pos(|start|) || !w.es.variables[name].Pos?
    ensures name in v.es.variables && v.es.variables[name].Str? && w.es.text == start + v.es.variables[name].text
  {}
}
