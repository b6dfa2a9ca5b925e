/** The queue protocol between a program's thread and the worker, over every interleaving of their steps. */
module WorkerQueue {
  import opened Options
  import opened Text
  import opened Ir
  import opened Executor
  import opened WorkerSteps

  datatype Item = Task(e: Expr) | Stop

  /** What became of a queue item, in the order the worker took them. */
  datatype Outcome = Executed(e: Expr) | FailedOn(e: Expr) | Drained(item: Item) | Stopped

  /** Where the worker is. */
  datatype Phase =
    | Getting                                // about to take an item
    | Running(e: Expr, rest: seq<Instr>)
    | Reporting(item: Item)                  // about to report the item as done
    | DrainReport(item: Item)                // after an exception: about to report the item in hand
    | DrainNext                              // ... about to take the next one without waiting
    | Releasing                              // ... about to set every event
    | Storing                                // ... about to store the error
    | Exited

  datatype World = World(
    es: Exec,
    queue: seq<Item>,
    unfinished: int,
    phase: Phase,
    pending: Option<Expr>,       // announced by the program, not yet in the queue
    errorStored: bool,
    submitted: seq<Item>,        // history: everything ever put into the queue
    outcomes: seq<Outcome>)      // history: everything ever taken out of it

  ghost predicate Init(w: World) {
    && !w.es.raised && w.es.events == map[]
    && w.queue == [] && w.unfinished == 0 && w.phase == Getting && w.pending.None?
    && !w.errorStored && w.submitted == [] && w.outcomes == []
  }

  function AllSet(events: map<string, bool>): map<string, bool> {
    map name | name in events :: true
  }

  /** One step of the worker. */
  ghost predicate Works(c: Config, b: Backend, w: World, v: World) {
    match w.phase
    case Getting =>
      w.queue != [] &&
      v == (match w.queue[0]
            case Task(e) => w.(queue := w.queue[1..], phase := Running(e, Compile(e)))
            case Stop => w.(queue := w.queue[1..], phase := Reporting(Stop), outcomes := w.outcomes + [Stopped]))
    case Running(e, rest) =>
      if rest == [] then v == w.(phase := Reporting(Task(e)), outcomes := w.outcomes + [Executed(e)])
      else
        var (t, more) := Step(c, b, w.es, rest[0]);
        if t.raised then v == w.(es := t, phase := DrainReport(Task(e)), outcomes := w.outcomes + [FailedOn(e)])
        else v == w.(es := t, phase := Running(e, more + rest[1..]))
    case Reporting(item) =>
      v == w.(unfinished := w.unfinished - 1, phase := if item.Stop? then Exited else Getting)
    case DrainReport(_) => v == w.(unfinished := w.unfinished - 1, phase := DrainNext)
    case DrainNext =>
      if w.queue == [] then v == w.(phase := Releasing)
      else v == w.(queue := w.queue[1..], phase := DrainReport(w.queue[0]), outcomes := w.outcomes + [Drained(w.queue[0])])
    case Releasing => v == w.(es := w.es.(events := AllSet(w.es.events)), phase := Storing)
    case Storing => v == w.(errorStored := true, phase := Exited)
    case Exited => false
  }

  function Put(w: World, item: Item): World {
    w.(queue := w.queue + [item], unfinished := w.unfinished + 1, submitted := w.submitted + [item])
  }

  /** One step of the program's thread: announcing an expression, putting it into the queue, or putting the end mark. */
  ghost predicate Submits(w: World, v: World) {
    || (w.pending.None? && exists e :: v == w.(es := InitEvents(w.es, Announced(e)), pending := Some(e)))
    || (w.pending.Some? && v == Put(w, Task(w.pending.value)).(pending := None))
    || (w.pending.None? && v == Put(w, Stop))
  }

  ghost predicate Next(c: Config, b: Backend, w: World, v: World) {
    Works(c, b, w, v) || Submits(w, v)
  }

  ghost predicate IsRun(c: Config, b: Backend, ws: seq<World>) {
    && ws != [] && Init(ws[0])
    && forall i :: 0 <= i < |ws| - 1 ==> StepAt(c, b, ws, i)
  }

  ghost predicate StepAt(c: Config, b: Backend, ws: seq<World>, i: nat)
    requires i + 1 < |ws|
  {
    Next(c, b, ws[i], ws[i + 1])
  }

  // ---------- The invariant ----------

  function ItemOf(o: Outcome): Item {
    match o
    case Executed(e) => Task(e)
    case FailedOn(e) => Task(e)
    case Drained(item) => item
    case Stopped => Stop
  }

  function ItemsOf(os: seq<Outcome>): seq<Item> {
    seq(|os|, i requires 0 <= i < |os| => ItemOf(os[i]))
  }

  /** The items the worker holds and has not reported. */
  function InHand(phase: Phase): nat {
    if phase.Running? || phase.Reporting? || phase.DrainReport? then 1 else 0
  }

  /** The item being executed is in no outcome yet. */
  function Unrecorded(phase: Phase): seq<Item> {
    if phase.Running? then [Task(phase.e)] else []
  }

  predicate AllExecuted(os: seq<Outcome>) {
    forall o :: o in os ==> o.Executed?
  }

  /** Everything was executed up to one failure, and everything after it was drained. */
  predicate FailedAt(os: seq<Outcome>, k: int) {
    && 0 <= k < |os| && os[k].FailedOn?
    && AllExecuted(os[..k])
    && forall i :: k < i < |os| ==> os[i].Drained?
  }

  ghost predicate Failed(w: World) {
    exists k :: FailedAt(w.outcomes, k)
  }

  ghost predicate History(w: World) {
    match w.phase
    case Getting => AllExecuted(w.outcomes)
    case Running(_, _) => AllExecuted(w.outcomes)
    case Reporting(item) =>
      if item.Stop? then StoppedLast(w.outcomes) else AllExecuted(w.outcomes)
    case DrainReport(_) => Failed(w)
    case DrainNext => Failed(w)
    case Releasing => Failed(w)
    case Storing => Failed(w)
    case Exited => if w.errorStored then Failed(w) else StoppedLast(w.outcomes)
  }

  predicate StoppedLast(os: seq<Outcome>) {
    os != [] && os[|os| - 1].Stopped? && AllExecuted(os[..|os| - 1])
  }

  ghost predicate Inv(w: World) {
    && w.unfinished == |w.queue| + InHand(w.phase)
    && w.submitted == ItemsOf(w.outcomes) + Unrecorded(w.phase) + w.queue
    && History(w)
    && (w.errorStored ==> w.phase.Exited?)
    && (w.es.raised <==> Failed(w))
  }

  lemma ItemsOfSnoc(os: seq<Outcome>, o: Outcome)
    ensures ItemsOf(os + [o]) == ItemsOf(os) + [ItemOf(o)]
  {}

  lemma SucceedingIsNotFailing(os: seq<Outcome>)
    ensures AllExecuted(os) || StoppedLast(os) ==> forall k :: !FailedAt(os, k)
  {
    forall k | FailedAt(os, k)
      ensures !AllExecuted(os) && !StoppedLast(os)
    {
      assert os[k] in os;
      assert k < |os| - 1 ==> os[..|os| - 1][k] == os[k];
    }
  }

  lemma FailureRecorded(os: seq<Outcome>, e: Expr)
    requires AllExecuted(os)
    ensures FailedAt(os + [FailedOn(e)], |os|)
  {
    assert (os + [FailedOn(e)])[..|os|] == os;
  }

  lemma DrainRecorded(os: seq<Outcome>, k: int, item: Item)
    requires FailedAt(os, k)
    ensures FailedAt(os + [Drained(item)], k)
  {
    assert (os + [Drained(item)])[..k] == os[..k];
  }

  lemma GettingKeepsInv(c: Config, b: Backend, w: World, v: World)
    requires Inv(w) && w.phase.Getting? && Works(c, b, w, v)
    ensures Inv(v)
  {
    var (head, tail) := (w.queue[0], w.queue[1..]);
    var os := ItemsOf(w.outcomes);
    assert w.queue == [head] + tail;
    ConcatAssociative(os, [head], tail);
    ConcatAssociative(os, [], []);
    ItemsOfSnoc(w.outcomes, Stopped);
    SucceedingIsNotFailing(w.outcomes);
    if head.Stop? {
      ConcatAssociative(os + [Stop], [], []);
      assert v.outcomes[..|w.outcomes|] == w.outcomes;
      SucceedingIsNotFailing(v.outcomes);
    }
  }

  lemma RunningKeepsInv(c: Config, b: Backend, w: World, v: World)
    requires Inv(w) && w.phase.Running? && Works(c, b, w, v)
    ensures Inv(v)
  {
    var e := w.phase.e;
    var os := ItemsOf(w.outcomes);
    SucceedingIsNotFailing(w.outcomes);
    ItemsOfSnoc(w.outcomes, Executed(e));
    ItemsOfSnoc(w.outcomes, FailedOn(e));
    FailureRecorded(w.outcomes, e);
    ConcatAssociative(os + [Task(e)], [], []);
    assert AllExecuted(w.outcomes + [Executed(e)]);
    SucceedingIsNotFailing(w.outcomes + [Executed(e)]);
  }

  lemma DrainingKeepsInv(c: Config, b: Backend, w: World, v: World)
    requires Inv(w) && w.phase.DrainNext? && Works(c, b, w, v)
    ensures Inv(v)
  {
    if w.queue != [] {
      var (head, tail) := (w.queue[0], w.queue[1..]);
      var os := ItemsOf(w.outcomes);
      assert w.queue == [head] + tail;
      ConcatAssociative(os, [head], tail);
      ConcatAssociative(os, [], []);
      ConcatAssociative(os + [head], [], []);
      ItemsOfSnoc(w.outcomes, Drained(head));
      var k :| FailedAt(w.outcomes, k);
      DrainRecorded(w.outcomes, k, head);
    }
  }

  lemma WorksKeepsInv(c: Config, b: Backend, w: World, v: World)
    requires Inv(w) && Works(c, b, w, v)
    ensures Inv(v)
  {
    match w.phase
    case Getting => GettingKeepsInv(c, b, w, v);
    case Running(_, _) => RunningKeepsInv(c, b, w, v);
    case DrainNext => DrainingKeepsInv(c, b, w, v);
    case _ => assert v.outcomes == w.outcomes;
  }

  lemma PutKeepsInv(w: World, item: Item)
    requires Inv(w)
    ensures Inv(Put(w, item))
  {
    ConcatAssociative(ItemsOf(w.outcomes) + Unrecorded(w.phase), w.queue, [item]);
    assert Put(w, item).outcomes == w.outcomes;
  }

  /** Every step of either thread keeps the count of unfinished items and the account of all items. */
  lemma NextKeepsInv(c: Config, b: Backend, w: World, v: World)
    requires Inv(w) && Next(c, b, w, v)
    ensures Inv(v)
  {
    if Works(c, b, w, v) {
      WorksKeepsInv(c, b, w, v);
    } else if w.pending.Some? {
      PutKeepsInv(w, Task(w.pending.value));
    } else if v == Put(w, Stop) {
      PutKeepsInv(w, Stop);
    }
    assert w.outcomes == v.outcomes ==> (Failed(w) <==> Failed(v));
  }

  lemma {:induction false} InvAlways(c: Config, b: Backend, ws: seq<World>, i: nat)
    requires IsRun(c, b, ws) && i < |ws|
    ensures Inv(ws[i])
  {
    if i == 0 {
      SucceedingIsNotFailing(ws[0].outcomes);
    } else {
      InvAlways(c, b, ws, i - 1);
      assert StepAt(c, b, ws, i - 1);
      NextKeepsInv(c, b, ws[i - 1], ws[i]);
    }
  }

  // ---------- What it means ----------

  /** `task_done` is never called more often than `put`: whenever the worker is about to report, an item is unfinished. */
  lemma TaskDoneNeverOverruns(c: Config, b: Backend, ws: seq<World>, i: nat)
    requires IsRun(c, b, ws) && i < |ws|
    ensures ws[i].unfinished >= 0
    ensures ws[i].phase.Reporting? || ws[i].phase.DrainReport? ==> ws[i].unfinished >= 1
  {
    InvAlways(c, b, ws, i);
  }

  /** When `sync` can return, everything ever submitted was executed, failed, or was drained, in the order of submission. */
  lemma SyncMeansAllHandled(c: Config, b: Backend, ws: seq<World>, i: nat)
    requires IsRun(c, b, ws) && i < |ws|
    ensures ws[i].unfinished == 0 ==>
              ws[i].queue == [] && InHand(ws[i].phase) == 0 && ws[i].submitted == ItemsOf(ws[i].outcomes)
  {
    InvAlways(c, b, ws, i);
    ConcatAssociative(ItemsOf(ws[i].outcomes), [], []);
  }

  /** How many items were executed. */
  function ExecutedCount(os: seq<Outcome>): (n: nat)
    ensures n <= |os|
  {
    if os == [] || !os[0].Executed? then 0 else 1 + ExecutedCount(os[1..])
  }

  lemma {:induction false} ExecutedAreFirst(os: seq<Outcome>, k: nat)
    requires k <= |os| && AllExecuted(os[..k]) && forall i :: k <= i < |os| ==> !os[i].Executed?
    ensures ExecutedCount(os) == k
  {
    if k > 0 {
      assert os[0] == os[..k][0];
      assert os[1..][..k - 1] == os[..k][1..];
      ExecutedAreFirst(os[1..], k - 1);
    }
  }

  /** Execution is first in, first out: the executed expressions are exactly the first ones submitted, and no later one is executed. */
  lemma ExecutedInOrder(c: Config, b: Backend, ws: seq<World>, i: nat)
    requires IsRun(c, b, ws) && i < |ws|
    ensures var (os, n) := (ws[i].outcomes, ExecutedCount(ws[i].outcomes));
            && n <= |ws[i].submitted|
            && (forall k :: 0 <= k < n ==> os[k].Executed? && ws[i].submitted[k] == Task(os[k].e))
            && (forall k :: n <= k < |os| ==> !os[k].Executed?)
  {
    InvAlways(c, b, ws, i);
    var (w, os) := (ws[i], ws[i].outcomes);
    if Failed(w) {
      var k :| FailedAt(os, k);
      ExecutedAreFirst(os, k);
      assert forall j :: 0 <= j < k ==> os[j] == os[..k][j];
    } else if StoppedLast(os) {
      ExecutedAreFirst(os, |os| - 1);
      assert forall j :: 0 <= j < |os| - 1 ==> os[j] == os[..|os| - 1][j];
    } else {
      assert os[..|os|] == os;
      ExecutedAreFirst(os, |os|);
    }
    assert forall k :: 0 <= k < |os| ==> w.submitted[k] == ItemsOf(os)[k] == ItemOf(os[k]);
  }

  /** The stored error tells of a failure exactly when the worker has exited; between the drain and the exit it is missing. */
  lemma ErrorIsStoredLast(c: Config, b: Backend, ws: seq<World>, i: nat)
    requires IsRun(c, b, ws) && i < |ws|
    ensures ws[i].errorStored <==> ws[i].phase.Exited? && exists o :: o in ws[i].outcomes && o.FailedOn?
  {
    InvAlways(c, b, ws, i);
    var os := ws[i].outcomes;
    if ws[i].errorStored {
      var k :| FailedAt(os, k);
      assert os[k] in os;
    } else if ws[i].phase.Exited? {
      forall o | o in os
        ensures !o.FailedOn?
      {
        var k :| 0 <= k < |os| && os[k] == o;
        assert k < |os| - 1 ==> os[..|os| - 1][k] == o;
        assert k < |os| - 1 ==> os[..|os| - 1][k] in os[..|os| - 1];
      }
    }
  }

  ghost predicate ErrorMissed(w: World) {
    w.unfinished == 0 && w.pending.None? && !w.errorStored && exists o :: o in w.outcomes && o.FailedOn?
  }

  /** So a program that waits for the queue and then reads the error can miss it: the queue is done, an expression failed, no error is stored. */
  lemma ErrorCanBeMissedAfterSync(c: Config, b: Backend)
    ensures exists ws :: IsRun(c, b, ws) && ErrorMissed(ws[|ws| - 1])
  {
    var e := Variable("x");
    var s := Fresh([], None);
    var w0 := World(s, [], 0, Getting, None, false, [], []);
    var w1 := w0.(es := InitEvents(s, Announced(e)), pending := Some(e));
    var w2 := Put(w1, Task(e)).(pending := None);
    var w3 := w2.(queue := [], phase := Running(e, Compile(e)));
    var t := Raise(w1.es);
    var w4 := w3.(es := t, phase := DrainReport(Task(e)), outcomes := [FailedOn(e)]);
    var w5 := w4.(unfinished := 0, phase := DrainNext);
    var ws := [w0, w1, w2, w3, w4, w5];
    assert Submits(w0, w1) && Submits(w1, w2);
    assert w2.queue[1..] == [];
    assert Compile(e) == [Whole(e)];
    assert Step(c, b, w3.es, Whole(e)) == (t, []);
    assert Works(c, b, w2, w3) && Works(c, b, w3, w4) && Works(c, b, w4, w5);
    assert FailedOn(e) in w5.outcomes;
    assert IsRun(c, b, ws);
  }
}
