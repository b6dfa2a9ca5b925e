/** A run with a worker thread computes what submitting the same expressions one after the other computes. */
module ThreadedRuns {
  import opened Options
  import opened Text
  import opened Ir
  import opened Executor
  import opened WorkerSteps
  import opened WorkerQueue
  import opened Publication

  /** The expressions among queue items. */
  function Tasks(items: seq<Item>): seq<Expr> {
    if items == [] then []
    else
      var last := items[|items| - 1];
      Tasks(items[..|items| - 1]) + if last.Task? then [last.e] else []
  }

  /** Submitting without a worker, in order. */
  function SubmitAll(c: Config, b: Backend, s: Exec, es: seq<Expr>): Exec {
    if es == [] then s else Submit(c, b, SubmitAll(c, b, s, es[..|es| - 1]), es[|es| - 1])
  }

  function AnnouncedSoFar(w: World): seq<Expr> {
    Tasks(w.submitted) + if w.pending.Some? then [w.pending.value] else []
  }

  /** The state once everything announced is carried out. */
  function Finished(c: Config, b: Backend, w: World): Exec {
    Steps(c, b, w.es, Coming(w))
  }

  lemma TasksSnoc(items: seq<Item>, item: Item)
    ensures Tasks(items + [item]) == Tasks(items) + if item.Task? then [item.e] else []
  {
    assert (items + [item])[..|items|] == items;
  }

  lemma SubmitAllSnoc(c: Config, b: Backend, s: Exec, es: seq<Expr>, e: Expr)
    ensures SubmitAll(c, b, s, es + [e]) == Submit(c, b, SubmitAll(c, b, s, es), e)
  {
    assert (es + [e])[..|es|] == es;
  }

  // ---------- Announcing new variables commutes with the worker's steps ----------

  lemma {:induction false} KvCommutes(s: Exec, kids: seq<Kid>, origin: nat, names: set<string>)
    ensures ConcatenateKv(InitEvents(s, names), kids, origin) == InitEvents(ConcatenateKv(s, kids, origin), names)
    decreases |kids|
  {
    if kids != [] && kids[0].forkPos == Some(origin) {
      KvCommutes(s.(text := s.text + Addition(kids[0])), kids[1..], origin, names);
    }
  }

  lemma EnterRoleCommutes(c: Config, s: Exec, role: string, names: set<string>)
    ensures EnterRole(c, InitEvents(s, names), role) == InitEvents(EnterRole(c, s, role), names)
  {}

  lemma ReadyCommutes(c: Config, s: Exec, role: string, names: set<string>)
    ensures Ready(c, InitEvents(s, names), role) == InitEvents(Ready(c, s, role), names)
  {
    if NeedsDefaultSystem(c, s, role) {
      var (prompt, entered) := (c.template.defaultSystem.value, EnterRole(c, s, "system"));
      EnterRoleCommutes(c, s, "system", names);
      assert Fill(InitEvents(entered, names), prompt) == InitEvents(Fill(entered, prompt), names);
      RoleEndCommutes(c, Fill(entered, prompt), "system", names);
    }
  }

  lemma RoleEndCommutes(c: Config, s: Exec, role: string, names: set<string>)
    ensures ExecuteRoleEnd(c, InitEvents(s, names), role) == InitEvents(ExecuteRoleEnd(c, s, role), names)
  {}

  lemma RoleBeginCommutes(c: Config, s: Exec, role: string, names: set<string>)
    ensures ExecuteRoleBegin(c, InitEvents(s, names), role) == InitEvents(ExecuteRoleBegin(c, s, role), names)
  {
    ReadyCommutes(c, s, role, names);
    EnterRoleCommutes(c, Ready(c, s, role), role, names);
  }

  lemma WholeCommutes(c: Config, b: Backend, s: Exec, e: Expr, names: set<string>)
    requires Proper(Whole(e))
    ensures Execute(c, b, InitEvents(s, names), e) == InitEvents(Execute(c, b, s, e), names)
  {
    if !s.raised {
      if e.ConcateAndAppend? {
        KvCommutes(s, e.kids, |s.text|, names);
      } else if e.RoleBegin? {
        RoleBeginCommutes(c, s, e.role, names);
      }
    }
  }

  lemma SetCommutes(s: Exec, name: string, names: set<string>)
    requires names !! s.events.Keys && name in s.events
    ensures SetEvent(InitEvents(s, names), name) == InitEvents(SetEvent(s, name), names)
  {
    var more := map n | n in names :: false;
    assert (s.events + more)[name := true] == s.events[name := true] + more;
  }

  lemma StepCommutes(c: Config, b: Backend, s: Exec, i: Instr, names: set<string>)
    requires Proper(i) && Touches(i) <= s.events.Keys && names !! s.events.Keys
    ensures Step(c, b, InitEvents(s, names), i) == (InitEvents(Step(c, b, s, i).0, names), Step(c, b, s, i).1)
  {
    match i
    case Whole(e) => WholeCommutes(c, b, s, e, names);
    case SetFlag(name) => SetCommutes(s, name, names);
    case AskGen(_, params) => AskingCommutes(c, b, s, i, names);
    case _ =>
  }

  lemma AskingCommutes(c: Config, b: Backend, s: Exec, i: Instr, names: set<string>)
    requires i.AskGen?
    ensures Step(c, b, InitEvents(s, names), i) == (InitEvents(Step(c, b, s, i).0, names), Step(c, b, s, i).1)
  {
    if !c.stream && s.specTokens.Some? {
      var (comp, after) := SpecGen(b, s, i.params);
      assert SpecGen(b, InitEvents(s, names), i.params) == (comp, InitEvents(after, names));
    }
  }

  lemma {:induction false} StepsCommute(c: Config, b: Backend, s: Exec, l: seq<Instr>, names: set<string>)
    requires PubInv(s, l) && names !! s.events.Keys
    ensures Steps(c, b, InitEvents(s, names), l) == InitEvents(Steps(c, b, s, l), names)
    decreases Expansions(l), |l|
  {
    if l != [] && !s.raised {
      var (i, rest) := (l[0], l[1..]);
      var (t, more) := Step(c, b, s, i);
      assert l == [i] + rest;
      HeadOfInv(s, i, rest);
      StepCommutes(c, b, s, i, names);
      MoreDoesNotExpand(c, b, s, i);
      ExpansionsAppend(more, rest);
      if !t.raised {
        StepKeepsInv(c, b, s, i, rest);
        StepEffect(c, b, s, i);
        StepsCommute(c, b, t, more + rest, names);
      }
    }
  }

  // ---------- Every step of either thread ----------

  predicate Announces(w: World, v: World) { w.pending.None? && v.pending.Some? }

  lemma AnnouncingKeeps(c: Config, b: Backend, w: World, v: World)
    requires Next(c, b, w, v) && Announces(w, v)
    ensures v.es == InitEvents(w.es, Announced(v.pending.value)) && v.submitted == w.submitted
    ensures Coming(v) == Coming(w) + Compile(v.pending.value)
  {
    if Works(c, b, w, v) {
      WorkLeavesTheProgram(c, b, w, v);
      assert false;
    }
    ConcatAssociative(QueueSteps(w.queue), [], []);
    ConcatAssociative(InProgress(w), QueueSteps(w.queue), Announcing(v));
  }

  lemma AnnouncedAfter(c: Config, b: Backend, w: World, v: World)
    requires Next(c, b, w, v)
    ensures AnnouncedSoFar(v) == if Announces(w, v) then AnnouncedSoFar(w) + [v.pending.value] else AnnouncedSoFar(w)
  {
    ConcatAssociative(Tasks(w.submitted), [], []);
    if Announces(w, v) {
      AnnouncingKeeps(c, b, w, v);
    } else if Works(c, b, w, v) {
      WorkLeavesTheProgram(c, b, w, v);
    } else {
      var item := if w.pending.Some? then Task(w.pending.value) else Stop;
      assert v.submitted == w.submitted + [item] && v.pending.None?;
      TasksSnoc(w.submitted, item);
      ConcatAssociative(Tasks(v.submitted), [], []);
    }
  }

  lemma WorkLeavesTheProgram(c: Config, b: Backend, w: World, v: World)
    requires Works(c, b, w, v)
    ensures v.submitted == w.submitted && v.pending == w.pending
  {}

  lemma FinishedAfter(c: Config, b: Backend, w: World, v: World)
    requires Inv(w) && TidyNext(c, b, w, v) && !v.es.raised && PubInv(w.es, Coming(w))
    ensures Finished(c, b, v) == if Announces(w, v) then Submit(c, b, Finished(c, b, w), v.pending.value) else Finished(c, b, w)
  {
    if Announces(w, v) {
      var (e, names) := (v.pending.value, Announced(v.pending.value));
      AnnouncingKeeps(c, b, w, v);
      StepsAppend(c, b, v.es, Coming(w), Compile(e));
      StepsCommute(c, b, w.es, Coming(w), names);
      SmallStepsExecute(c, b, InitEvents(Finished(c, b, w), names), e);
    } else {
      ComingAfter(c, b, w, v);
      if i, rest :| Coming(w) == [i] + rest && v.es == Step(c, b, w.es, i).0 && Coming(v) == Step(c, b, w.es, i).1 + rest {
        assert ([i] + rest)[1..] == rest;
      }
    }
  }

  lemma NothingComing(w: World)
    requires w.queue == [] && !w.phase.Running? && w.pending.None?
    ensures Coming(w) == [] && AnnouncedSoFar(w) == Tasks(w.submitted)
  {
    ConcatAssociative(Tasks(w.submitted), [], []);
  }

  /** In every state of a run that has not failed, what is done together with what is to come is the sequential run of all announced expressions. */
  lemma {:induction false} SequentialAlways(c: Config, b: Backend, ws: seq<World>, i: nat)
    requires IsTidyRun(c, b, ws) && i < |ws| && !ws[i].es.raised
    ensures Finished(c, b, ws[i]) == SubmitAll(c, b, ws[0].es, AnnouncedSoFar(ws[i]))
  {
    if i == 0 {
      NothingComing(ws[0]);
    } else {
      var (w, v) := (ws[i - 1], ws[i]);
      assert TidyAt(c, b, ws, i - 1);
      NotRaisedBefore(c, b, ws, i - 1, i);
      SequentialAlways(c, b, ws, i - 1);
      InvAlways(c, b, ws, i - 1);
      PubInvAlways(c, b, ws, i - 1);
      SequentialNext(c, b, ws[0].es, w, v);
    }
  }

  lemma SequentialNext(c: Config, b: Backend, start: Exec, w: World, v: World)
    requires Inv(w) && TidyNext(c, b, w, v) && !v.es.raised && PubInv(w.es, Coming(w))
    requires Finished(c, b, w) == SubmitAll(c, b, start, AnnouncedSoFar(w))
    ensures Finished(c, b, v) == SubmitAll(c, b, start, AnnouncedSoFar(v))
  {
    FinishedAfter(c, b, w, v);
    AnnouncedAfter(c, b, w, v);
    if Announces(w, v) {
      SubmitAllSnoc(c, b, start, AnnouncedSoFar(w), v.pending.value);
    }
  }

  /**
  In every interleaving that has not failed, whenever the queue is done and nothing is pending, all that was submitted was executed,
  and the whole state of the executor is that of submitting the same expressions in turn without a worker.
  */
  lemma ThreadedRunIsSequential(c: Config, b: Backend, ws: seq<World>, i: nat)
    requires IsTidyRun(c, b, ws) && i < |ws| && !ws[i].es.raised
    requires ws[i].unfinished == 0 && ws[i].pending.None?
    ensures ws[i].es == SubmitAll(c, b, ws[0].es, Tasks(ws[i].submitted))
    ensures ws[i].submitted == ItemsOf(ws[i].outcomes) && (AllExecuted(ws[i].outcomes) || StoppedLast(ws[i].outcomes))
  {
    SequentialAlways(c, b, ws, i);
    InvAlways(c, b, ws, i);
    SyncMeansAllHandled(c, b, ws, i);
    NothingComing(ws[i]);
  }
}
