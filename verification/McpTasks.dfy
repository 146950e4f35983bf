/**
  The engine task queue of src/engine/mcp_server.cpp, over the threads that push and cancel and the engine
  thread that resolves.
 */
module McpTasks {
  import opened Bytes

  const TASK_LIMIT := 64

  // A Resolve under way: what it swapped out and has not looked at, and whether it is inside a function.
  datatype Batch = Batch(rest: seq<nat>, calling: bool)

  // Tasks are numbered in the order the queue accepted them.  A function may enter Resolve again: the batches
  // are those of every Resolve under way, the innermost last.
  datatype Queue = Queue(
    tasks: seq<nat>,        // m_Tasks
    batches: seq<Batch>,
    cancelled: set<nat>,
    begun: seq<nat>,        // in the order their functions were called
    nextId: nat)

  const EMPTY_QUEUE := Queue([], [], {}, [], 0)

  // RunAndWait up to its lock and its giving up on a task; Resolve's swap, each check and the return of the function
  // it lets run, and its own return.
  datatype Action = Push | Cancel(id: nat) | Swap | Check | Done | Return

  function Top(q: Queue): Batch
    requires q.batches != []
  {
    q.batches[|q.batches| - 1]
  }

  function Below(q: Queue): seq<Batch>
    requires q.batches != []
  {
    q.batches[..|q.batches| - 1]
  }

  function AfterPush(q: Queue): Queue {
    if |q.tasks| >= TASK_LIMIT then q else q.(tasks := q.tasks + [q.nextId], nextId := q.nextId + 1)
  }

  predicate CanSwap(q: Queue) {
    q.batches == [] || Top(q).calling
  }

  function AfterSwap(q: Queue): Queue {
    if CanSwap(q) then q.(tasks := [], batches := q.batches + [Batch(q.tasks, false)]) else q
  }

  function AfterCheck(q: Queue): Queue {
    if q.batches == [] || Top(q).calling || Top(q).rest == [] then q
    else
      var id, rest := Top(q).rest[0], Top(q).rest[1..];
      if id in q.cancelled then q.(batches := Below(q) + [Batch(rest, false)])
      else q.(batches := Below(q) + [Batch(rest, true)], begun := q.begun + [id])
  }

  function AfterDone(q: Queue): Queue {
    if q.batches == [] then q else q.(batches := Below(q) + [Top(q).(calling := false)])
  }

  function AfterReturn(q: Queue): Queue {
    if q.batches == [] || Top(q).calling || Top(q).rest != [] then q else q.(batches := Below(q))
  }

  function After(q: Queue, a: Action): Queue {
    match a
    case Push => AfterPush(q)
    case Cancel(id) => q.(cancelled := q.cancelled + {id})
    case Swap => AfterSwap(q)
    case Check => AfterCheck(q)
    case Done => AfterDone(q)
    case Return => AfterReturn(q)
  }

  function RunActions(q: Queue, actions: seq<Action>): Queue
    decreases |actions|
  {
    if actions == [] then q else RunActions(After(q, actions[0]), actions[1..])
  }

  // What the batches still hold, outermost first
  function Rests(batches: seq<Batch>): seq<nat> {
    if batches == [] then [] else Rests(batches[..|batches| - 1]) + batches[|batches| - 1].rest
  }

  // Every task not begun, cancelled or skipped yet: from the oldest to the youngest.
  function Waiting(q: Queue): seq<nat> {
    Rests(q.batches) + q.tasks
  }

  predicate NoRepeats(ids: seq<nat>) {
    forall i, j | 0 <= i < j < |ids| :: ids[i] != ids[j]
  }

  ghost predicate QueueOk(q: Queue) {
    && |q.tasks| <= 64
    && Sorted(Waiting(q)) && (forall x | x in Waiting(q) :: x < q.nextId)
    && NoRepeats(q.begun) && (forall x | x in q.begun :: x < q.nextId && x !in Waiting(q))
  }

  lemma RestsSnoc(batches: seq<Batch>, b: Batch)
    ensures Rests(batches + [b]) == Rests(batches) + b.rest
  {
    assert (batches + [b])[..|batches|] == batches;
  }

  lemma RestsTop(q: Queue)
    requires q.batches != []
    ensures Rests(q.batches) == Rests(Below(q)) + Top(q).rest
  {
  }

  lemma SortedWithout(a: seq<nat>, x: nat, b: seq<nat>)
    requires Sorted(a + [x] + b)
    ensures Sorted(a + b) && x !in a + b && forall y | y in a + b :: y in a + [x] + b
  {
    var all := a + [x] + b;
    assert all[|a|] == x;
    assert forall i | 0 <= i < |a + b| :: (a + b)[i] == all[if i < |a| then i else i + 1];
  }

  // A check takes the first task of the innermost batch out of the line.
  lemma CheckTakes(q: Queue)
    requires q.batches != [] && !Top(q).calling && Top(q).rest != []
    ensures var a, x, b := Rests(Below(q)), Top(q).rest[0], Top(q).rest[1..] + q.tasks;
            Waiting(q) == a + [x] + b && Waiting(AfterCheck(q)) == a + b
  {
    hide Rests;
    var a, rest := Rests(Below(q)), Top(q).rest;
    var t := AfterCheck(q);
    RestsTop(q);
    RestsSnoc(Below(q), Batch(rest[1..], false));
    RestsSnoc(Below(q), Batch(rest[1..], true));
    assert Rests(t.batches) == a + rest[1..] && t.tasks == q.tasks;
    hide AfterCheck;
    assert a + rest + q.tasks == a + [rest[0]] + (rest[1..] + q.tasks);
    assert a + rest[1..] + q.tasks == a + (rest[1..] + q.tasks);
  }

  lemma SameLine(q: Queue, a: Action)
    requires a.Swap? || a.Done? || a.Return?
    ensures Waiting(After(q, a)) == Waiting(q)
  {
    if q.batches != [] {
      RestsTop(q);
      RestsSnoc(Below(q), Top(q).(calling := false));
    }
    RestsSnoc(q.batches, Batch(q.tasks, false));
    hide Rests;
  }

  lemma PushKeepsQueueOk(q: Queue)
    requires QueueOk(q)
    ensures QueueOk(AfterPush(q))
  {
    hide Rests;
    if |q.tasks| < TASK_LIMIT {
      var line := Waiting(q);
      assert Waiting(AfterPush(q)) == line + [q.nextId];
      hide Waiting;
      assert forall i | 0 <= i < |line| :: line[i] in line;
      assert forall x | x in line + [q.nextId] :: x in line || x == q.nextId;
    }
  }

  lemma CheckKeepsQueueOk(q: Queue)
    requires QueueOk(q)
    ensures QueueOk(AfterCheck(q))
  {
    if q.batches != [] && !Top(q).calling && Top(q).rest != [] {
      CheckTakes(q);
      var x := Top(q).rest[0];
      SortedWithout(Rests(Below(q)), x, Top(q).rest[1..] + q.tasks);
      assert x in Waiting(q);
      assert forall y | y in q.begun + [x] :: y in q.begun || y == x;
      hide Waiting, Rests, Sorted;
    }
  }

  lemma ActionKeepsQueueOk(q: Queue, a: Action)
    requires QueueOk(q)
    ensures QueueOk(After(q, a))
  {
    match a
    case Push =>
      hide QueueOk;
      PushKeepsQueueOk(q);
    case Check =>
      hide QueueOk;
      CheckKeepsQueueOk(q);
    case Cancel(_) =>
    case _ =>
      SameLine(q, a);
      hide Waiting, Sorted;
  }

  lemma {:induction false} ActionsKeepQueueOk(q: Queue, actions: seq<Action>)
    requires QueueOk(q)
    ensures QueueOk(RunActions(q, actions))
    decreases |actions|
  {
    hide QueueOk, After;
    if actions != [] {
      ActionKeepsQueueOk(q, actions[0]);
      ActionsKeepQueueOk(After(q, actions[0]), actions[1..]);
    }
  }

  // On every interleaving, however often Resolve is entered again, at most 64 tasks are pending and none is begun
  // twice.
  lemma AtMostOnce(actions: seq<Action>)
    ensures var q := RunActions(EMPTY_QUEUE, actions); |q.tasks| <= 64 && NoRepeats(q.begun)
  {
    assert QueueOk(EMPTY_QUEUE);
    ActionsKeepQueueOk(EMPTY_QUEUE, actions);
  }

  // A task cancelled before its check never runs, whatever follows.
  lemma {:induction false} CancelledNeverRuns(q: Queue, id: nat, actions: seq<Action>)
    requires id in q.cancelled && id !in q.begun
    ensures id !in RunActions(q, actions).begun
    decreases |actions|
  {
    if actions != [] {
      CancelledNeverRuns(After(q, actions[0]), id, actions[1..]);
    }
  }

  // So a caller that gives up before its task was called can rely on it.
  lemma GivenUpNeverRuns(q: Queue, id: nat, actions: seq<Action>)
    requires id !in q.begun
    ensures id !in RunActions(After(q, Cancel(id)), actions).begun
  {
    CancelledNeverRuns(After(q, Cancel(id)), id, actions);
  }

  // Every task the queue accepted was called, waits, or was given up.
  ghost predicate NothingLost(q: Queue) {
    forall x: nat | x < q.nextId :: x in q.begun || x in Waiting(q) || x in q.cancelled
  }

  lemma ActionLosesNothing(q: Queue, a: Action)
    requires NothingLost(q)
    ensures NothingLost(After(q, a))
  {
    match a
    case Push =>
      assert Waiting(AfterPush(q)) == Waiting(q) + if |q.tasks| < TASK_LIMIT then [q.nextId] else [];
      hide Waiting;
    case Check =>
      if q.batches != [] && !Top(q).calling && Top(q).rest != [] {
        CheckTakes(q);
        hide Waiting, Rests;
      }
    case Cancel(_) => hide Rests;
    case _ =>
      SameLine(q, a);
      hide Waiting;
  }

  lemma {:induction false} NoTaskLost(q: Queue, actions: seq<Action>)
    requires NothingLost(q)
    ensures NothingLost(RunActions(q, actions))
    decreases |actions|
  {
    hide NothingLost, After;
    if actions != [] {
      ActionLosesNothing(q, actions[0]);
      NoTaskLost(After(q, actions[0]), actions[1..]);
    }
  }

  // The order in which tasks run

  function Pairs(a: seq<nat>, b: seq<nat>): set<(nat, nat)> {
    set x, y | x in a && y in b :: (x, y)
  }

  // The pairs of an older and a younger task that a Resolve, entered from a function, finds in the batches further
  // out and in the queue.
  function MetAt(q: Queue, a: Action): set<(nat, nat)> {
    if a.Swap? && CanSwap(q) then Pairs(Rests(q.batches), q.tasks) else {}
  }

  function Met(actions: seq<Action>): set<(nat, nat)> {
    if actions == [] then {}
    else
      var last := |actions| - 1;
      Met(actions[..last]) + MetAt(RunActions(EMPTY_QUEUE, actions[..last]), actions[last])
  }

  predicate HeldBy(batches: seq<Batch>, i: nat, x: nat) {
    i < |batches| && x in batches[i].rest
  }

  // y began before x.
  ghost predicate Inverted(begun: seq<nat>, x: nat, y: nat) {
    exists i, j :: 0 <= i < j < |begun| && begun[i] == y && begun[j] == x
  }

  // What may overtake has met: pairs held by two batches, a younger task begun and an older one held, and pairs
  // begun the wrong way round.
  ghost predicate OnlyMet(q: Queue, met: set<(nat, nat)>) {
    && (forall i: nat, j: nat, x: nat, y: nat ::
          i < j && HeldBy(q.batches, i, x) && HeldBy(q.batches, j, y) ==> (x, y) in met)
    && (forall i: nat, x: nat, y: nat :: HeldBy(q.batches, i, x) && y in q.begun && x < y ==> (x, y) in met)
    && (forall x: nat, y: nat :: Inverted(q.begun, x, y) && x < y ==> (x, y) in met)
    && (forall x: nat, y: nat :: x in q.tasks && y in q.begun ==> y < x)
  }

  // What has met can only begin the wrong way round: the older one is further out, and once it has begun the
  // younger one waits no more.
  ghost predicate Overtaking(q: Queue, x: nat, y: nat) {
    && x < y < q.nextId && x !in q.tasks && y !in q.tasks
    && (forall i: nat, j: nat :: HeldBy(q.batches, i, x) && HeldBy(q.batches, j, y) ==> i < j)
    && (x in q.begun ==> forall j: nat :: !HeldBy(q.batches, j, y))
    && (x in q.begun && y in q.begun ==> Inverted(q.begun, x, y))
  }

  ghost predicate History(q: Queue, met: set<(nat, nat)>) {
    QueueOk(q) && OnlyMet(q, met) && forall p | p in met :: Overtaking(q, p.0, p.1)
  }

  lemma {:induction false} HeldInRests(batches: seq<Batch>, i: nat, x: nat)
    requires HeldBy(batches, i, x)
    ensures x in Rests(batches)
  {
    var last := |batches| - 1;
    if i < last {
      HeldInRests(batches[..last], i, x);
    }
  }

  lemma {:induction false} RestsHeldBy(batches: seq<Batch>, x: nat) returns (i: nat)
    requires x in Rests(batches)
    ensures HeldBy(batches, i, x)
  {
    var last := |batches| - 1;
    if x in batches[last].rest {
      i := last;
    } else {
      i := RestsHeldBy(batches[..last], x);
    }
  }

  // Batches further out hold older tasks.
  lemma {:induction false} HeldInOrder(batches: seq<Batch>, i: nat, j: nat, x: nat, y: nat)
    requires Sorted(Rests(batches)) && i < j && HeldBy(batches, i, x) && HeldBy(batches, j, y)
    ensures x < y
  {
    var last := |batches| - 1;
    var outer := Rests(batches[..last]);
    if j < last {
      assert forall k | 0 <= k < |outer| :: outer[k] == Rests(batches)[k];
      HeldInOrder(batches[..last], i, j, x, y);
    } else {
      HeldInRests(batches[..last], i, x);
      SortedAcross(outer, batches[last].rest, x, y);
    }
  }

  lemma SortedAcross(a: seq<nat>, b: seq<nat>, x: nat, y: nat)
    requires Sorted(a + b) && x in a && y in b
    ensures x < y
  {
    var i :| 0 <= i < |a| && a[i] == x;
    var j :| 0 <= j < |b| && b[j] == y;
    assert (a + b)[i] == x && (a + b)[|a| + j] == y;
  }

  // What the line says of the places in it
  lemma PlacesInLine(q: Queue)
    requires QueueOk(q)
    ensures forall i: nat, x: nat | HeldBy(q.batches, i, x) :: x in Waiting(q) && x !in q.begun && x !in q.tasks
    ensures forall i: nat, x: nat, y: nat | HeldBy(q.batches, i, x) && y in q.tasks :: x < y
    ensures forall i: nat, j: nat, x: nat, y: nat | HeldBy(q.batches, i, x) && HeldBy(q.batches, j, y) && i < j ::
              x < y
  {
    hide Rests;
    var rests := Rests(q.batches);
    assert Sorted(rests) by {
      assert forall k | 0 <= k < |rests| :: rests[k] == Waiting(q)[k];
    }
    forall i: nat, x: nat | HeldBy(q.batches, i, x)
      ensures x in Waiting(q) && x !in q.begun && forall y: nat | y in q.tasks :: x < y
    {
      HeldInRests(q.batches, i, x);
      forall y: nat | y in q.tasks ensures x < y {
        SortedAcross(rests, q.tasks, x, y);
      }
    }
    forall i: nat, j: nat, x: nat, y: nat | HeldBy(q.batches, i, x) && HeldBy(q.batches, j, y) && i < j
      ensures x < y
    {
      HeldInOrder(q.batches, i, j, x, y);
    }
  }

  // What is left of a place after a check: the innermost batch loses its first, and oldest, task.
  lemma CheckHeld(q: Queue)
    requires QueueOk(q) && q.batches != [] && !Top(q).calling && Top(q).rest != []
    ensures var t := AfterCheck(q);
            var last, id := |q.batches| - 1, Top(q).rest[0];
            && HeldBy(q.batches, last, id) && t.tasks == q.tasks && t.nextId == q.nextId
            && t.begun == (if id in q.cancelled then q.begun else q.begun + [id])
            && (forall i: nat, x: nat :: HeldBy(t.batches, i, x) ==> HeldBy(q.batches, i, x) && i <= last)
            && (forall x: nat :: HeldBy(t.batches, last, x) ==> id < x)
  {
    FirstIsOldest(q);
    hide QueueOk, Waiting, Rests, Sorted;
  }

  lemma FirstIsOldest(q: Queue)
    requires QueueOk(q) && q.batches != [] && !Top(q).calling && Top(q).rest != []
    ensures forall x: nat | x in Top(q).rest[1..] :: Top(q).rest[0] < x
  {
    hide NoRepeats, AfterCheck, Rests;
    CheckTakes(q);
    var a, rest := Rests(Below(q)), Top(q).rest;
    assert Waiting(q) == (a + [rest[0]]) + (rest[1..] + q.tasks);
    hide Waiting;
    forall x: nat | x in rest[1..] ensures rest[0] < x {
      SortedAcross(a + [rest[0]], rest[1..] + q.tasks, rest[0], x);
    }
  }

  lemma CheckKeepsOnlyMet(q: Queue, met: set<(nat, nat)>)
    requires QueueOk(q) && OnlyMet(q, met)
    ensures OnlyMet(AfterCheck(q), met)
  {
    if q.batches != [] && !Top(q).calling && Top(q).rest != [] {
      PlacesInLine(q);
      CheckHeld(q);
      hide AfterCheck, HeldBy, QueueOk, Inverted;
      NewInversion(q.begun, Top(q).rest[0]);
    }
  }

  lemma NewInversion(begun: seq<nat>, id: nat)
    ensures forall x, y | Inverted(begun + [id], x, y) :: Inverted(begun, x, y) || (x == id && y in begun)
  {
    forall x, y | Inverted(begun + [id], x, y) ensures Inverted(begun, x, y) || (x == id && y in begun) {
      var more := begun + [id];
      var i, j :| 0 <= i < j < |more| && more[i] == y && more[j] == x;
    }
  }

  lemma SwapKeepsOnlyMet(q: Queue, met: set<(nat, nat)>)
    requires QueueOk(q) && OnlyMet(q, met)
    ensures OnlyMet(AfterSwap(q), met + MetAt(q, Swap))
  {
    if CanSwap(q) {
      PlacesInLine(q);
      var t := AfterSwap(q);
      forall i: nat, x: nat | HeldBy(t.batches, i, x)
        ensures HeldBy(q.batches, i, x) || (i == |q.batches| && x in q.tasks)
        ensures i < |q.batches| ==> x in Rests(q.batches)
      {
        if i < |q.batches| {
          HeldInRests(q.batches, i, x);
        }
      }
      hide Inverted, QueueOk, Rests, AfterSwap;
    }
  }

  lemma OthersKeepOnlyMet(q: Queue, a: Action, met: set<(nat, nat)>)
    requires QueueOk(q) && OnlyMet(q, met) && !a.Swap? && !a.Check?
    ensures OnlyMet(After(q, a), met)
  {
    var t := After(q, a);
    assert t.begun == q.begun;
    assert forall i: nat, x: nat :: HeldBy(t.batches, i, x) ==> HeldBy(q.batches, i, x);
    assert forall x | x in t.tasks :: x in q.tasks || x == q.nextId;
    hide After, HeldBy, Inverted;
  }

  lemma CheckKeepsOvertaking(q: Queue, x: nat, y: nat)
    requires QueueOk(q) && Overtaking(q, x, y)
    ensures Overtaking(AfterCheck(q), x, y)
  {
    if q.batches != [] && !Top(q).calling && Top(q).rest != [] {
      CheckHeld(q);
      PlacesInLine(q);
      var t := AfterCheck(q);
      var id := Top(q).rest[0];
      hide AfterCheck, HeldBy, QueueOk;
      if x in t.begun && y in t.begun && y in q.begun {
        if x in q.begun {
          InvertedGrows(q.begun, t.begun, x, y);
        } else {
          var at :| 0 <= at < |q.begun| && q.begun[at] == y;
          assert t.begun[at] == y && t.begun[|q.begun|] == x;
        }
      }
    }
  }

  lemma InvertedGrows(begun: seq<nat>, more: seq<nat>, x: nat, y: nat)
    requires Inverted(begun, x, y) && begun <= more
    ensures Inverted(more, x, y)
  {
  }

  lemma OthersKeepOvertaking(q: Queue, a: Action, x: nat, y: nat)
    requires QueueOk(q) && Overtaking(q, x, y) && !a.Check?
    ensures Overtaking(After(q, a), x, y)
  {
    var t := After(q, a);
    assert t.begun == q.begun && q.nextId <= t.nextId;
    assert forall z | z in t.tasks :: z in q.tasks || z == q.nextId;
    assert forall i: nat, z: nat :: HeldBy(t.batches, i, z) ==> HeldBy(q.batches, i, z) || z in q.tasks;
    hide After, HeldBy, Inverted;
  }

  lemma NewlyMet(q: Queue, x: nat, y: nat)
    requires QueueOk(q) && (x, y) in MetAt(q, Swap)
    ensures Overtaking(AfterSwap(q), x, y)
  {
    var at := RestsHeldBy(q.batches, x);
    PlacesInLine(q);
    var t := AfterSwap(q);
    assert y in Waiting(q);
    assert forall i: nat, z: nat ::
        HeldBy(t.batches, i, z) ==> HeldBy(q.batches, i, z) || (i == |q.batches| && z in q.tasks);
    hide AfterSwap, HeldBy, Rests;
  }

  lemma ActionKeepsHistory(q: Queue, a: Action, met: set<(nat, nat)>)
    requires History(q, met)
    ensures History(After(q, a), met + MetAt(q, a))
  {
    ActionKeepsQueueOk(q, a);
    hide QueueOk, OnlyMet, Overtaking;
    if a.Swap? {
      SwapKeepsOnlyMet(q, met);
    } else if a.Check? {
      CheckKeepsOnlyMet(q, met);
      assert met + MetAt(q, a) == met;
    } else {
      OthersKeepOnlyMet(q, a, met);
      assert met + MetAt(q, a) == met;
    }
    forall p | p in met + MetAt(q, a) ensures Overtaking(After(q, a), p.0, p.1) {
      if p !in met {
        NewlyMet(q, p.0, p.1);
      } else if a.Check? {
        CheckKeepsOvertaking(q, p.0, p.1);
      } else {
        OthersKeepOvertaking(q, a, p.0, p.1);
      }
    }
  }

  lemma {:induction false} HistoryOfRun(actions: seq<Action>)
    ensures History(RunActions(EMPTY_QUEUE, actions), Met(actions))
  {
    if actions != [] {
      var last := |actions| - 1;
      HistoryOfRun(actions[..last]);
      ActionKeepsHistory(RunActions(EMPTY_QUEUE, actions[..last]), actions[last], Met(actions[..last]));
      var before, q := OneMore(actions[..last], RunActions(EMPTY_QUEUE, actions[..last]), actions[last]);
      assert actions == before;
      hide History, RunActions;
    }
  }

  /**
    Of every run, whatever is cancelled in it and wherever it ends: functions are called in the order their tasks
    were pushed if and only if of no two that met, an older one in a Resolve further out and a younger one in the
    queue, both are called.
   */
  lemma PushOrderIff(actions: seq<Action>)
    ensures var begun := RunActions(EMPTY_QUEUE, actions).begun;
            Sorted(begun) <==> forall p | p in Met(actions) :: !(p.0 in begun && p.1 in begun)
  {
    HistoryOfRun(actions);
    hide RunActions, Met, HeldBy, Waiting;
    var q := RunActions(EMPTY_QUEUE, actions);
    var begun, met := q.begun, Met(actions);
    if Sorted(begun) {
      forall p | p in met ensures !(p.0 in begun && p.1 in begun) {
        assert Overtaking(q, p.0, p.1);
      }
    } else {
      var i, j :| 0 <= i < j < |begun| && begun[i] >= begun[j];
      assert Inverted(begun, begun[j], begun[i]);
      assert (begun[j], begun[i]) in met;
    }
  }

  // In particular where nothing met.
  lemma InPushOrder(actions: seq<Action>)
    requires Met(actions) == {}
    ensures Sorted(RunActions(EMPTY_QUEUE, actions).begun)
  {
    PushOrderIff(actions);
  }

  predicate NoCancel(actions: seq<Action>) {
    forall a | a in actions :: !a.Cancel?
  }

  lemma {:induction false} NothingCancelled(q: Queue, actions: seq<Action>)
    requires NoCancel(actions) && q.cancelled == {}
    ensures RunActions(q, actions).cancelled == {}
    decreases |actions|
  {
    if actions != [] {
      assert actions[0] in actions && forall a | a in actions[1..] :: a in actions;
      NothingCancelled(After(q, actions[0]), actions[1..]);
    }
  }

  // If nothing is given up and every Resolve has returned, they are if and only if none overtook another: no
  // Resolve was entered while older tasks waited further out and younger ones in the queue.
  lemma NeverOvertakesIff(actions: seq<Action>)
    requires NoCancel(actions) && RunActions(EMPTY_QUEUE, actions).batches == []
    ensures Sorted(RunActions(EMPTY_QUEUE, actions).begun) <==> Met(actions) == {}
  {
    PushOrderIff(actions);
    HistoryOfRun(actions);
    NothingCancelled(EMPTY_QUEUE, actions);
    NoTaskLost(EMPTY_QUEUE, actions);
    hide RunActions, Met, HeldBy;
    var q := RunActions(EMPTY_QUEUE, actions);
    assert Waiting(q) == q.tasks;
    hide Waiting, Rests;
    if Met(actions) != {} {
      var p :| p in Met(actions);
      assert Overtaking(q, p.0, p.1);
      assert p.0 in q.begun && p.1 in q.begun;
    }
  }

  lemma OneMore(actions: seq<Action>, q: Queue, a: Action) returns (actions': seq<Action>, q': Queue)
    requires RunActions(EMPTY_QUEUE, actions) == q
    ensures q' == After(q, a) && RunActions(EMPTY_QUEUE, actions') == q'
    ensures actions' == actions + [a]
  {
    actions', q' := actions + [a], After(q, a);
    RunConcat(EMPTY_QUEUE, actions, [a]);
    assert RunActions(q, [a]) == After(q, a);
  }

  // The state after an action, spelled out
  lemma CheckIs(q: Queue, outer: seq<Batch>, ids: seq<nat>)
    requires q.batches == outer + [Batch(ids, false)] && ids != [] && ids[0] !in q.cancelled
    ensures AfterCheck(q) == q.(batches := outer + [Batch(ids[1..], true)], begun := q.begun + [ids[0]])
  {
    assert Below(q) == outer;
  }

  lemma DoneIs(q: Queue, outer: seq<Batch>, rest: seq<nat>)
    requires q.batches == outer + [Batch(rest, true)]
    ensures AfterDone(q) == q.(batches := outer + [Batch(rest, false)])
  {
    assert Below(q) == outer;
  }

  lemma ReturnIs(q: Queue, outer: seq<Batch>)
    requires q.batches == outer + [Batch([], false)]
    ensures AfterReturn(q) == q.(batches := outer)
  {
    assert Below(q) == outer;
  }

  lemma OvertakingRun() returns (actions: seq<Action>, q: Queue)
    ensures NoCancel(actions) && RunActions(EMPTY_QUEUE, actions) == q
    ensures q == Queue([], [Batch([1], true), Batch([], false)], {}, [0, 2], 3)
  {
    hide RunActions, AfterCheck, AfterDone, AfterReturn;
    var none, one: seq<nat> := [], [1];
    var inner: seq<Batch> := [];
    var outer := [Batch(one, true)];
    actions, q := NoActions();
    actions, q := OneMore(actions, q, Push);
    actions, q := OneMore(actions, q, Push);
    assert q.tasks == [0, 1];
    actions, q := OneMore(actions, q, Swap);
    assert q.batches == inner + [Batch([0, 1], false)];
    CheckIs(q, inner, [0, 1]);
    assert [0, 1][1..] == one && inner + [Batch(one, true)] == outer;
    actions, q := OneMore(actions, q, Check);
    actions, q := OneMore(actions, q, Push);
    assert q.tasks == [2] && q.batches == outer;
    actions, q := OneMore(actions, q, Swap);
    CheckIs(q, outer, [2]);
    assert [2][1..] == none;
    actions, q := OneMore(actions, q, Check);
    DoneIs(q, outer, none);
    actions, q := OneMore(actions, q, Done);
  }

  // The third task overtakes the second: the first one's function enters Resolve again.
  lemma SomeTaskOvertakes()
    ensures exists actions :: NoCancel(actions) && RunActions(EMPTY_QUEUE, actions).batches == []
                              && RunActions(EMPTY_QUEUE, actions).begun == [0, 2, 1]
  {
    hide RunActions, AfterCheck, AfterDone, AfterReturn;
    var none, one: seq<nat> := [], [1];
    var inner: seq<Batch> := [];
    var outer := [Batch(one, true)];
    var actions, q := OvertakingRun();
    ReturnIs(q, outer);
    actions, q := OneMore(actions, q, Return);
    assert q.batches == inner + [Batch(one, true)];
    DoneIs(q, inner, one);
    actions, q := OneMore(actions, q, Done);
    CheckIs(q, inner, one);
    assert one[1..] == none;
    actions, q := OneMore(actions, q, Check);
    DoneIs(q, inner, none);
    actions, q := OneMore(actions, q, Done);
    ReturnIs(q, inner);
    actions, q := OneMore(actions, q, Return);
    assert q.begun == [0, 2, 1];
  }

  lemma NoActions() returns (actions: seq<Action>, q: Queue)
    ensures actions == [] && q == EMPTY_QUEUE && RunActions(EMPTY_QUEUE, actions) == q
  {
    actions, q := [], EMPTY_QUEUE;
  }

  // One Resolve, with all that happens meanwhile: what other threads do before each of its checks, and what they
  // and the function itself do during the call, which may be to enter Resolve again.  What is not given is nothing.

  type OtherAction = a: Action | a.Push? || a.Cancel? witness Push

  datatype Deed = Other(action: OtherAction) | Enter(rounds: seq<Round>)

  datatype Round = Round(before: seq<OtherAction>, during: seq<Deed>)

  function DeedSteps(q: Queue, deeds: seq<Deed>): seq<Action>
    decreases deeds, 0
  {
    if deeds == [] then []
    else
      var first := DeedStep(q, deeds[0]);
      first + DeedSteps(RunActions(q, first), deeds[1..])
  }

  function DeedStep(q: Queue, deed: Deed): seq<Action>
    decreases deed, 0
  {
    match deed
    case Other(action) => [action]
    case Enter(rounds) => ResolveSteps(q, rounds)
  }

  // A check, and the function it calls if it calls one
  function CheckSteps(q: Queue, deeds: seq<Deed>): seq<Action>
    decreases deeds, 1
  {
    var t := AfterCheck(q);
    [Check] + (if t.batches != [] && Top(t).calling then DeedSteps(t, deeds) else []) + [Done]
  }

  // One round of the loop
  function RoundSteps(q: Queue, rounds: seq<Round>): seq<Action>
    decreases rounds, 0
  {
    if rounds == [] then [Check, Done]
    else rounds[0].before + CheckSteps(RunActions(q, rounds[0].before), rounds[0].during)
  }

  // The loop over n tasks
  function LoopSteps(q: Queue, n: nat, rounds: seq<Round>): seq<Action>
    decreases rounds, 1, n
  {
    if n == 0 then [Return]
    else
      var round := RoundSteps(q, rounds);
      round + LoopSteps(RunActions(q, round), n - 1, if rounds == [] then [] else rounds[1..])
  }

  // The rounds from the k-th on
  function Left(rounds: seq<Round>, k: nat): seq<Round> {
    if k <= |rounds| then rounds[k..] else []
  }

  function ResolveSteps(q: Queue, rounds: seq<Round>): seq<Action>
    decreases rounds, 2
  {
    [Swap] + LoopSteps(AfterSwap(q), |q.tasks|, rounds)
  }

  lemma {:induction false} RunConcat(q: Queue, a: seq<Action>, b: seq<Action>)
    ensures RunActions(q, a + b) == RunActions(RunActions(q, a), b)
    decreases |a|
  {
    hide After;
    if a == [] {
      assert a + b == b;
    } else {
      assert (a + b)[1..] == a[1..] + b;
      RunConcat(After(q, a[0]), a[1..], b);
    }
  }

  function NotCancelled(ids: seq<nat>, cancelled: set<nat>): seq<nat> {
    if ids == [] then []
    else (if ids[0] in cancelled then [] else [ids[0]]) + NotCancelled(ids[1..], cancelled)
  }

  // One task of the innermost batch, checked and done with
  lemma OneTask(q: Queue)
    requires q.batches != [] && !Top(q).calling && Top(q).rest != []
    ensures var id := Top(q).rest[0];
            var t := AfterDone(AfterCheck(q));
            && t.batches != [] && Below(t) == Below(q) && Top(t) == Batch(Top(q).rest[1..], false)
            && t == q.(batches := t.batches, begun := if id in q.cancelled then q.begun else q.begun + [id])
  {
    assert Below(AfterCheck(q)) == Below(q);
  }

  lemma NotCancelledFirst(begun: seq<nat>, ids: seq<nat>, cancelled: set<nat>)
    requires ids != []
    ensures (if ids[0] in cancelled then begun else begun + [ids[0]]) + NotCancelled(ids[1..], cancelled)
         == begun + NotCancelled(ids, cancelled)
  {
    var others := NotCancelled(ids[1..], cancelled);
    if ids[0] in cancelled {
      assert NotCancelled(ids, cancelled) == others;
    } else {
      assert NotCancelled(ids, cancelled) == [ids[0]] + others;
      hide NotCancelled;
      ConcatAssociates(begun, [ids[0]], others);
    }
  }

  lemma ConcatAssociates(a: seq<nat>, b: seq<nat>, c: seq<nat>)
    ensures (a + b) + c == a + (b + c)
  {
  }

  lemma CheckDone(q: Queue)
    ensures RunActions(q, [Check, Done]) == AfterDone(AfterCheck(q))
  {
    hide AfterCheck, AfterDone;
    assert [Check, Done][1..] == [Done];
    assert RunActions(AfterCheck(q), [Done]) == AfterDone(AfterCheck(q));
  }

  lemma {:induction false} LoopAlone(q: Queue)
    requires q.batches != [] && !Top(q).calling
    ensures RunActions(q, LoopSteps(q, |Top(q).rest|, []))
         == q.(batches := Below(q), begun := q.begun + NotCancelled(Top(q).rest, q.cancelled))
    decreases |Top(q).rest|
  {
    hide AfterCheck, AfterDone, AfterSwap, AfterPush;
    if Top(q).rest == [] {
      assert RunActions(q, [Return]) == AfterReturn(q);
    } else {
      var t := AfterDone(AfterCheck(q));
      CheckDone(q);
      RunConcat(q, [Check, Done], LoopSteps(t, |Top(q).rest| - 1, []));
      OneTask(q);
      hide RunActions, AfterReturn, NotCancelled, Below, Top;
      LoopAlone(t);
      NotCancelledFirst(q.begun, Top(q).rest, q.cancelled);
    }
  }

  // Undisturbed, it begins every pending task that is not cancelled, in order.
  lemma ResolveAlone(q: Queue)
    requires CanSwap(q)
    ensures RunActions(q, ResolveSteps(q, []))
         == q.(tasks := [], begun := q.begun + NotCancelled(q.tasks, q.cancelled))
  {
    var t := AfterSwap(q);
    assert Below(t) == q.batches && Top(t) == Batch(q.tasks, false);
    LoopAlone(t);
    hide LoopSteps;
    assert ResolveSteps(q, [])[1..] == LoopSteps(t, |q.tasks|, []);
  }

  class EngineTaskQueue {
    var tasks: seq<nat>
    // The local state of every Resolve under way
    var batches: seq<Batch>
    var cancelled: set<nat>
    var begun: seq<nat>
    var nextId: nat

    ghost function Model(): Queue
      reads this
    {
      Queue(tasks, batches, cancelled, begun, nextId)
    }

    constructor ()
      ensures Model() == EMPTY_QUEUE
    {
      tasks, batches, cancelled, begun, nextId := [], [], {}, [], 0;
    }

    // The locked part of RunAndWait; not accepted is the exception for a full queue.
    method PushTask() returns (accepted: bool)
      modifies this
      ensures Model() == AfterPush(old(Model())) && accepted == (old(|tasks|) < 64)
      ensures batches == old(batches)
    {
      if |tasks| >= TASK_LIMIT {
        return false;
      }
      tasks := tasks + [nextId];
      nextId := nextId + 1;
      accepted := true;
    }

    method CancelTask(id: nat)
      modifies this`cancelled
      ensures Model() == After(old(Model()), Cancel(id))
    {
      cancelled := cancelled + {id};
    }

    // tasks.swap(m_Tasks) under the lock
    method SwapTasks()
      requires CanSwap(Model())
      modifies this
      ensures Model() == AfterSwap(old(Model()))
    {
      tasks, batches := [], batches + [Batch(tasks, false)];
    }

    // The next task of the innermost Resolve: skipped if cancelled, else its function is called.
    method CheckTask()
      requires batches != [] && !Top(Model()).calling && Top(Model()).rest != []
      modifies this
      ensures Model() == AfterCheck(old(Model()))
    {
      var last := |batches| - 1;
      var rest := batches[last].rest;
      if rest[0] in cancelled {
        batches := batches[..last] + [Batch(rest[1..], false)];
      } else {
        begun := begun + [rest[0]];
        batches := batches[..last] + [Batch(rest[1..], true)];
      }
    }

    // The function has returned or thrown.
    method FinishTask()
      requires batches != []
      modifies this`batches
      ensures Model() == AfterDone(old(Model()))
    {
      var last := |batches| - 1;
      batches := batches[..last] + [batches[last].(calling := false)];
    }

    method OtherThreads(actions: seq<OtherAction>)
      modifies this
      ensures Model() == RunActions(old(Model()), actions) && batches == old(batches)
    {
      hide AfterPush;
      var i := 0;
      while i < |actions|
        invariant i <= |actions| && batches == old(batches)
        invariant RunActions(Model(), actions[i..]) == RunActions(old(Model()), actions)
      {
        assert actions[i..][1..] == actions[i + 1..];
        match actions[i] {
          case Push =>
            var accepted := PushTask();
          case Cancel(id) => CancelTask(id);
          case _ =>
        }
        i := i + 1;
      }
    }

    // What happens during the call of a function.
    method Call(deeds: seq<Deed>)
      requires CanSwap(Model())
      modifies this
      ensures Model() == RunActions(old(Model()), DeedSteps(old(Model()), deeds)) && batches == old(batches)
      decreases deeds, 0
    {
      hide RunActions, ResolveSteps, DeedSteps;
      ghost var target := RunActions(Model(), DeedSteps(Model(), deeds));
      var i := 0;
      while i < |deeds|
        invariant i <= |deeds| && batches == old(batches)
        invariant RunActions(Model(), DeedSteps(Model(), deeds[i..])) == target
      {
        NextDeed(Model(), deeds, i);
        match deeds[i] {
          case Other(action) => OtherThreads([action]);
          case Enter(rounds) => Resolve(rounds);
        }
        i := i + 1;
      }
      assert deeds[i..] == [];
      NoDeed(Model());
    }

    // A check, and the function it calls if it calls one.
    method CheckAndCall(deeds: seq<Deed>)
      requires batches != [] && !Top(Model()).calling && Top(Model()).rest != []
      modifies this
      ensures Model() == RunActions(old(Model()), CheckSteps(old(Model()), deeds))
      ensures batches == Below(old(Model())) + [Batch(Top(old(Model())).rest[1..], false)]
      decreases deeds, 1
    {
      hide RunActions, DeedSteps, CheckSteps;
      CheckedSteps(Model(), deeds);
      CheckTask();
      if batches[|batches| - 1].calling {
        Call(deeds);
      }
      FinishTask();
    }

    // Resolve, wherever the engine thread may enter it, and whatever happens meanwhile.
    method Resolve(rounds: seq<Round>)
      requires CanSwap(Model())
      modifies this
      ensures Model() == RunActions(old(Model()), ResolveSteps(old(Model()), rounds)) && batches == old(batches)
      decreases rounds, 1
    {
      hide RunActions, LoopSteps, RoundSteps, CheckSteps, ResolveSteps;
      ghost var target := RunActions(Model(), ResolveSteps(Model(), rounds));
      ghost var outer := batches;
      EnterResolve(Model(), rounds);
      SwapTasks();
      var k := 0;
      while batches[|batches| - 1].rest != []
        invariant |batches| == |outer| + 1 && batches[..|outer|] == outer && !Top(Model()).calling
        invariant RunActions(Model(), LoopSteps(Model(), |Top(Model()).rest|, Left(rounds, k))) == target
        decreases |Top(Model()).rest|
      {
        NextRound(Model(), |Top(Model()).rest|, rounds, k);
        RoundIs(Model(), rounds, k);
        if k < |rounds| {
          OtherThreads(rounds[k].before);
          CheckAndCall(rounds[k].during);
        } else {
          OneTask(Model());
          CheckTask();
          FinishTask();
        }
        k := k + 1;
      }
      NoRound(Model(), Left(rounds, k));
      batches := batches[..|batches| - 1];
    }
  }

  lemma NextDeed(q: Queue, deeds: seq<Deed>, i: nat)
    requires i < |deeds|
    ensures var t := RunActions(q, DeedStep(q, deeds[i]));
            RunActions(q, DeedSteps(q, deeds[i..])) == RunActions(t, DeedSteps(t, deeds[i + 1..]))
  {
    var first := DeedStep(q, deeds[i]);
    RunConcat(q, first, DeedSteps(RunActions(q, first), deeds[i + 1..]));
    hide RunActions, DeedStep;
    assert deeds[i..][1..] == deeds[i + 1..];
  }

  lemma NoDeed(q: Queue)
    ensures RunActions(q, DeedSteps(q, [])) == q
  {
  }

  lemma CheckedSteps(q: Queue, deeds: seq<Deed>)
    ensures var t := AfterCheck(q);
            RunActions(q, CheckSteps(q, deeds)) ==
              AfterDone(if t.batches != [] && Top(t).calling then RunActions(t, DeedSteps(t, deeds)) else t)
  {
    hide AfterCheck, AfterDone, DeedSteps;
    var t := AfterCheck(q);
    if t.batches != [] && Top(t).calling {
      var inside := DeedSteps(t, deeds);
      RunConcat(q, [Check] + inside, [Done]);
      RunConcat(q, [Check], inside);
      assert RunActions(q, [Check]) == t;
      assert RunActions(RunActions(t, inside), [Done]) == AfterDone(RunActions(t, inside));
    } else {
      assert CheckSteps(q, deeds) == [Check, Done];
      CheckDone(q);
    }
  }

  lemma NextRound(q: Queue, n: nat, rounds: seq<Round>, k: nat)
    requires n > 0
    ensures var t := RunActions(q, RoundSteps(q, Left(rounds, k)));
            RunActions(q, LoopSteps(q, n, Left(rounds, k))) == RunActions(t, LoopSteps(t, n - 1, Left(rounds, k + 1)))
  {
    var round := RoundSteps(q, Left(rounds, k));
    RunConcat(q, round, LoopSteps(RunActions(q, round), n - 1, Left(rounds, k + 1)));
    hide RunActions, RoundSteps;
    if k < |rounds| {
      assert Left(rounds, k)[1..] == Left(rounds, k + 1);
    } else {
      assert Left(rounds, k) == [] == Left(rounds, k + 1);
    }
  }

  lemma RoundIs(q: Queue, rounds: seq<Round>, k: nat)
    ensures RunActions(q, RoundSteps(q, Left(rounds, k)))
         == if k < |rounds| then
              var t := RunActions(q, rounds[k].before);
              RunActions(t, CheckSteps(t, rounds[k].during))
            else AfterDone(AfterCheck(q))
  {
    if k < |rounds| {
      var before := rounds[k].before;
      RunConcat(q, before, CheckSteps(RunActions(q, before), rounds[k].during));
    } else {
      CheckDone(q);
    }
  }

  lemma NoRound(q: Queue, rounds: seq<Round>)
    requires q.batches != [] && Top(q) == Batch([], false)
    ensures RunActions(q, LoopSteps(q, 0, rounds)) == q.(batches := Below(q))
  {
    assert RunActions(q, [Return]) == AfterReturn(q);
  }

  lemma EnterResolve(q: Queue, rounds: seq<Round>)
    ensures RunActions(q, ResolveSteps(q, rounds))
         == RunActions(AfterSwap(q), LoopSteps(AfterSwap(q), |q.tasks|, Left(rounds, 0)))
  {
    hide LoopSteps, AfterSwap;
    assert Left(rounds, 0) == rounds;
    assert ResolveSteps(q, rounds)[1..] == LoopSteps(AfterSwap(q), |q.tasks|, rounds);
  }
}
