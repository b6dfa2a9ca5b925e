/** Events over all runs, failing ones included: who waits for a variable is released when the worker fails. */
module EventRelease {
  import opened Options
  import opened Text
  import opened Ir
  import opened Executor
  import opened WorkerSteps
  import opened WorkerQueue

  predicate IsSet(s: Exec, name: string) { name in s.events && s.events[name] }

  /** The worker never takes an event away, and never unsets one. */
  ghost predicate KeepsEvents(s: Exec, t: Exec) {
    t.events.Keys == s.events.Keys && forall name :: IsSet(s, name) ==> IsSet(t, name)
  }

  lemma GenKeepsEvents(c: Config, b: Backend, s: Exec, name: string, params: Params)
    ensures KeepsEvents(s, ExecuteGen(c, b, s, name, params))
  {
    if !c.stream && s.specTokens.Some? {
      var (comp, after) := SpecGen(b, s, params);
      assert after.events == s.events;
      PublishKeepsEvents(s, after, name, comp, Str(comp));
    } else {
      var call := Ask(s, if c.stream then ForStream(params) else ForGen(params));
      var asked := s.(calls := s.calls + [call]);
      if c.stream {
        PublishKeepsEvents(s, asked, name, Join(b.generateStream(call)), Str(Join(b.generateStream(call))));
      } else {
        match b.generate(call)
        case One(comp) => PublishKeepsEvents(s, asked, name, comp, Str(comp));
        case Several(comps) =>
          if comps != [] {
            PublishKeepsEvents(s, asked, name, comps[0], Many(Strs(comps)));
          }
      }
    }
  }

  lemma PublishKeepsEvents(s: Exec, t: Exec, name: string, addition: string, value: Value)
    requires t.events == s.events
    ensures KeepsEvents(s, Publish(t, name, addition, value))
  {}

  lemma RoleBeginKeepsEvents(c: Config, s: Exec, role: string)
    ensures ExecuteRoleBegin(c, s, role).events == s.events
  {
    assert Ready(c, s, role).events == s.events;
  }

  lemma SelectKeepsEvents(b: Backend, s: Exec, name: Option<string>, choices: seq<string>)
    ensures KeepsEvents(s, ExecuteSelect(b, s, name, choices))
  {}

  lemma {:induction false} ExecuteKeepsEvents(c: Config, b: Backend, s: Exec, e: Expr)
    ensures KeepsEvents(s, Execute(c, b, s, e))
    decreases e, 1
  {
    match e
    case ExprList(items) => ExecuteAllKeepsEvents(c, b, s, items);
    case Gen(name, params) => GenKeepsEvents(c, b, s, name, params);
    case RoleBegin(role) => RoleBeginKeepsEvents(c, s, role);
    case Select(name, choices) => SelectKeepsEvents(b, s, name, choices);
    case ConcateAndAppend(kids) => KvKeepsEvents(s, kids, |s.text|);
    case _ =>
  }

  lemma {:induction false} ExecuteAllKeepsEvents(c: Config, b: Backend, s: Exec, es: seq<Expr>)
    ensures KeepsEvents(s, ExecuteAll(c, b, s, es))
    decreases es, 0
  {
    if es != [] {
      ExecuteKeepsEvents(c, b, s, es[0]);
      ExecuteAllKeepsEvents(c, b, Execute(c, b, s, es[0]), es[1..]);
    }
  }

  lemma StepKeepsEvents(c: Config, b: Backend, s: Exec, i: Instr)
    ensures KeepsEvents(s, Step(c, b, s, i).0)
  {
    match i
    case Whole(e) => ExecuteKeepsEvents(c, b, s, e);
    case AskGen(_, params) =>
      if !c.stream && s.specTokens.Some? {
        assert SpecGen(b, s, params).1.events == s.events;
      }
    case _ =>
  }

  /** No step of the worker unsets an event or changes which events there are. */
  lemma WorkKeepsEvents(c: Config, b: Backend, w: World, v: World)
    requires Works(c, b, w, v)
    ensures KeepsEvents(w.es, v.es)
  {
    if w.phase.Running? && w.phase.rest != [] {
      StepKeepsEvents(c, b, w.es, w.phase.rest[0]);
    }
  }

  /** A set event stays set over every step of either thread, unless the program announces its variable anew. */
  lemma NextKeepsEvents(c: Config, b: Backend, w: World, v: World, name: string)
    requires Next(c, b, w, v) && IsSet(w.es, name)
    ensures IsSet(v.es, name) || (w.pending.None? && v.pending.Some? && name in Announced(v.pending.value))
  {
    if Works(c, b, w, v) {
      WorkKeepsEvents(c, b, w, v);
    }
  }

  /** The release: afterwards every event is set, and nothing else of the executor has changed. */
  lemma ReleaseSetsAll(c: Config, b: Backend, w: World, v: World)
    requires Works(c, b, w, v) && w.phase.Releasing?
    ensures v.es.events.Keys == w.es.events.Keys && forall name :: name in w.es.events ==> IsSet(v.es, name)
    ensures v.es == w.es.(events := v.es.events) && v.phase.Storing?
  {}

  predicate AnnouncesName(w: World, v: World, name: string) {
    w.pending.None? && v.pending.Some? && name in Announced(v.pending.value)
  }

  /** After a failure the worker passes through the release on its way out, and is then done for good. */
  predicate Leaving(phase: Phase) { phase.DrainReport? || phase.DrainNext? || phase.Releasing? || phase.Storing? || phase.Exited? }

  lemma LeavingIsFinal(c: Config, b: Backend, w: World, v: World)
    requires Next(c, b, w, v) && Leaving(w.phase)
    ensures Leaving(v.phase)
    ensures w.phase.Storing? || w.phase.Exited? ==> v.phase.Storing? || v.phase.Exited?
    ensures w.phase.Exited? ==> v.phase.Exited?
  {}

  ghost predicate ReleasedBetween(c: Config, b: Backend, ws: seq<World>, i: nat, k: nat, j: nat)
    requires j < |ws|
  {
    i <= k < j && ws[k].phase.Releasing? && Works(c, b, ws[k], ws[k + 1])
  }

  /** Over whole runs: a worker that has failed and is storing its error or gone has released on its way. */
  lemma {:induction false} FailureIsReleased(c: Config, b: Backend, ws: seq<World>, j: nat)
    requires IsRun(c, b, ws) && j < |ws| && (ws[j].phase.Storing? || ws[j].errorStored)
    ensures exists k :: ReleasedBetween(c, b, ws, 0, k, j)
  {
    InvAlways(c, b, ws, j);
    if j > 0 {
      var (w, v) := (ws[j - 1], ws[j]);
      assert StepAt(c, b, ws, j - 1);
      if w.phase.Releasing? && Works(c, b, w, v) {
        assert ReleasedBetween(c, b, ws, 0, j - 1, j);
      } else {
        FailureIsReleased(c, b, ws, j - 1);
        var k :| ReleasedBetween(c, b, ws, 0, k, j - 1);
        assert ReleasedBetween(c, b, ws, 0, k, j);
      }
    }
  }

  predicate NotAnnounced(ws: seq<World>, i: nat, j: nat, name: string)
    requires i <= j < |ws|
  {
    forall k :: i <= k < j ==> NotAnnouncedAt(ws, k, name)
  }

  predicate NotAnnouncedAt(ws: seq<World>, k: nat, name: string)
    requires k + 1 < |ws|
  {
    !AnnouncesName(ws[k], ws[k + 1], name)
  }

  /** A set event stays set for as long as its variable is not announced anew. */
  lemma {:induction false} SetForGood(c: Config, b: Backend, ws: seq<World>, i: nat, j: nat, name: string)
    requires IsRun(c, b, ws) && i <= j < |ws| && IsSet(ws[i].es, name) && NotAnnounced(ws, i, j, name)
    ensures IsSet(ws[j].es, name)
    decreases j - i
  {
    if i < j {
      SetForGood(c, b, ws, i, j - 1, name);
      assert StepAt(c, b, ws, j - 1) && NotAnnouncedAt(ws, j - 1, name);
      NextKeepsEvents(c, b, ws[j - 1], ws[j], name);
    }
  }

  /** Whoever waits for a variable announced before the worker released its events is released, and stays so. */
  lemma WaitersAreReleased(c: Config, b: Backend, ws: seq<World>, k: nat, j: nat, name: string)
    requires IsRun(c, b, ws) && k < j < |ws| && ws[k].phase.Releasing? && Works(c, b, ws[k], ws[k + 1])
    requires name in ws[k].es.events && NotAnnounced(ws, k + 1, j, name)
    ensures IsSet(ws[j].es, name)
  {
    ReleaseSetsAll(c, b, ws[k], ws[k + 1]);
    SetForGood(c, b, ws, k + 1, j, name);
  }

  /** A variable that is announced once the worker has gone on from the release is never published: its event stays unset for ever. */
  lemma {:induction false} LateVariableIsNeverSet(c: Config, b: Backend, ws: seq<World>, i: nat, j: nat, name: string)
    requires IsRun(c, b, ws) && i <= j < |ws| && (ws[i].phase.Storing? || ws[i].phase.Exited?)
    requires name in ws[i].es.events && !ws[i].es.events[name]
    ensures name in ws[j].es.events && !ws[j].es.events[name] && (ws[j].phase.Storing? || ws[j].phase.Exited?)
    decreases j - i
  {
    if i < j {
      LateVariableIsNeverSet(c, b, ws, i, j - 1, name);
      assert StepAt(c, b, ws, j - 1);
      LeavingIsFinal(c, b, ws[j - 1], ws[j]);
    }
  }
}
