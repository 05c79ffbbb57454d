/**
 The cooperative scheduler of a component instance: suspended tasks, the tick that
 resumes one of them, and the loop that keeps ticking.

 The runtime keeps the suspended ids in an array where a resumed task leaves a
 tombstone, compacted now and then, and a map from ids to resumption records.
 Together they refine a plain queue, on which bounded waiting is proved.
 */
module Scheduler {
  import opened Wrappers

  type TaskId = nat

  // ----- the abstract queue -----------------------------------------------------

  predicate NoRepeats(q: seq<TaskId>) {
    forall i, j :: 0 <= i < j < |q| ==> q[i] != q[j]
  }

  /** Position of the first task of `q` in `awake`, or the length of `q`. */
  function FirstAwake(q: seq<TaskId>, awake: set<TaskId>): (i: nat)
    ensures i <= |q|
    ensures i < |q| ==> q[i] in awake
    ensures forall j :: 0 <= j < i ==> q[j] !in awake
  {
    if q == [] || q[0] in awake then 0 else 1 + FirstAwake(q[1..], awake)
  }

  function RemoveAt(q: seq<TaskId>, i: nat): seq<TaskId>
    requires i < |q|
  {
    q[..i] + q[i + 1..]
  }

  function AfterTick(q: seq<TaskId>, awake: set<TaskId>): seq<TaskId> {
    var i := FirstAwake(q, awake);
    if i < |q| then RemoveAt(q, i) else q
  }

  /** A task is suspended, or a tick finds the tasks in `awake` ready or rejected. */
  datatype Event = Suspend(t: TaskId) | Tick(awake: set<TaskId>)

  function Step(q: seq<TaskId>, e: Event): seq<TaskId> {
    match e
    case Suspend(t) => if t in q then q else q + [t]
    case Tick(awake) => AfterTick(q, awake)
  }

  /** The tasks resumed in a run, in order. */
  function Resumed(q: seq<TaskId>, es: seq<Event>): seq<TaskId>
    decreases |es|
  {
    if es == [] then []
    else
      (match es[0]
       case Suspend(_) => []
       case Tick(awake) => var i := FirstAwake(q, awake); if i < |q| then [q[i]] else [])
      + Resumed(Step(q, es[0]), es[1..])
  }

  function Ticks(es: seq<Event>): nat {
    if es == [] then 0 else (if es[0].Tick? then 1 else 0) + Ticks(es[1..])
  }

  predicate StaysAwake(es: seq<Event>, t: TaskId) {
    forall i :: 0 <= i < |es| && es[i].Tick? ==> t in es[i].awake
  }

  /** One event leaves the task at `p` where it was or nearer, or resumes it. */
  lemma EventAt(q: seq<TaskId>, e: Event, p: nat)
    requires p < |q| && (e.Tick? ==> q[p] in e.awake)
    ensures var q', i := Step(q, e), if e.Tick? then FirstAwake(q, e.awake) else |q|;
            && (e.Suspend? || i > p ==> p < |q'| && q'[p] == q[p])
            && (e.Tick? ==> i <= p)
            && (i < p ==> p - 1 < |q'| && q'[p - 1] == q[p])
  {
  }

  lemma ResumedNext(q: seq<TaskId>, es: seq<Event>, t: TaskId)
    requires es != []
    ensures t in Resumed(Step(q, es[0]), es[1..]) ==> t in Resumed(q, es)
    ensures es[0].Tick? && FirstAwake(q, es[0].awake) < |q| && q[FirstAwake(q, es[0].awake)] == t
            ==> t in Resumed(q, es)
  {
  }

  /**
   A task that stays ready with `p` suspended tasks ahead of it is resumed within
   `p + 1` ticks, whatever is suspended in between.
   */
  lemma {:induction false} BoundedWaiting(q: seq<TaskId>, es: seq<Event>, p: nat)
    requires p < |q| && StaysAwake(es, q[p]) && Ticks(es) >= p + 1
    ensures q[p] in Resumed(q, es)
    decreases |es|
  {
    var t, e, rest := q[p], es[0], es[1..];
    EventAt(q, e, p);
    ResumedNext(q, es, t);
    assert forall i :: 0 <= i < |rest| ==> rest[i] == es[i + 1];
    assert Ticks(es) == (if e.Tick? then 1 else 0) + Ticks(rest);
    hide Step, Resumed, FirstAwake, Ticks;
    if e.Suspend? {
      BoundedWaiting(Step(q, e), rest, p);
    } else if FirstAwake(q, e.awake) < p {
      BoundedWaiting(Step(q, e), rest, p - 1);
    }
  }

  /** In every run, a tick resumes at most one task, and tasks never asked for stay put. */
  lemma {:induction false} OnlyAwakeResumed(q: seq<TaskId>, es: seq<Event>, t: TaskId)
    requires forall i :: 0 <= i < |es| && es[i].Tick? ==> t !in es[i].awake
    ensures |Resumed(q, es)| <= Ticks(es)
    ensures t !in Resumed(q, es)
    decreases |es|
  {
    if es != [] {
      OnlyAwakeResumed(Step(q, es[0]), es[1..], t);
    }
  }

  // ----- tombstones ----------------------------------------------------------------

  /** `ids.filter(t => t !== null)`. */
  function Compact(ids: seq<Option<TaskId>>): seq<TaskId> {
    if ids == [] then []
    else (if ids[0].Some? then [ids[0].value] else []) + Compact(ids[1..])
  }

  function Whole(q: seq<TaskId>): seq<Option<TaskId>> {
    seq(|q|, i requires 0 <= i < |q| => Some(q[i]))
  }

  lemma {:induction false} CompactAppend(a: seq<Option<TaskId>>, b: seq<Option<TaskId>>)
    ensures Compact(a + b) == Compact(a) + Compact(b)
  {
    if a == [] {
      assert a + b == b;
    } else {
      assert (a + b)[1..] == a[1..] + b;
      CompactAppend(a[1..], b);
      var first := if a[0].Some? then [a[0].value] else [];
      assert first + (Compact(a[1..]) + Compact(b)) == (first + Compact(a[1..])) + Compact(b);
    }
  }

  lemma {:induction false} CompactWhole(q: seq<TaskId>)
    ensures Compact(Whole(q)) == q
  {
    if q != [] {
      assert Whole(q)[1..] == Whole(q[1..]);
      CompactWhole(q[1..]);
    }
  }

  lemma {:induction false} InCompact(ids: seq<Option<TaskId>>, t: TaskId)
    ensures Some(t) in ids <==> t in Compact(ids)
  {
    if ids != [] {
      InCompact(ids[1..], t);
      assert ids == [ids[0]] + ids[1..];
    }
  }

  /** Putting a tombstone on the `j`-th entry takes the entry out of the queue. */
  lemma Tombstone(ids: seq<Option<TaskId>>, j: nat)
    requires j < |ids| && ids[j].Some?
    ensures var p := |Compact(ids[..j])|;
            p < |Compact(ids)| && Compact(ids)[p] == ids[j].value
            && Compact(ids[j := None]) == RemoveAt(Compact(ids), p)
  {
    var a, b := ids[..j], ids[j + 1..];
    assert ids == a + ([ids[j]] + b) && ids[j := None] == a + ([None] + b);
    CompactAppend(a, [ids[j]] + b);
    CompactAppend(a, [None] + b);
    assert ([ids[j]] + b)[1..] == b && ([None] + b)[1..] == b;
    assert Compact([None] + b) == Compact(b);
    assert Compact([ids[j]] + b) == [ids[j].value] + Compact(b);
  }

  lemma RemoveAtKeeps(q: seq<TaskId>, i: nat)
    requires i < |q| && NoRepeats(q)
    ensures NoRepeats(RemoveAt(q, i)) && q[i] !in RemoveAt(q, i)
    ensures forall t :: t in RemoveAt(q, i) <==> t in q && t != q[i]
  {
    forall t | t in q && t != q[i] ensures t in RemoveAt(q, i) {
      var k :| 0 <= k < |q| && q[k] == t;
      assert RemoveAt(q, i)[if k < i then k else k - 1] == t;
    }
  }

  // ----- the object ------------------------------------------------------------------

  datatype TickResult = RESUMED | IDLE | DONE

  datatype SchedulerError = AlreadySuspended | MissingTask

  datatype Meta = Meta(taskID: TaskId)

  class TaskScheduler {
    var suspendedTaskIDs: seq<Option<TaskId>>
    var suspendedTasksByTaskID: map<TaskId, Meta>
    /** Whether the tick loop is running. */
    var tickLoop: bool

    ghost function Queue(): seq<TaskId>
      reads this
    {
      Compact(suspendedTaskIDs)
    }

    ghost predicate Consistent()
      reads this
    {
      && NoRepeats(Queue())
      && (forall t :: t in suspendedTasksByTaskID <==> t in Queue())
      && (forall t :: t in suspendedTasksByTaskID ==> suspendedTasksByTaskID[t] == Meta(t))
    }

    /** While a task is suspended the tick loop is running. */
    ghost predicate Valid()
      reads this
    {
      Consistent() && (Queue() != [] ==> tickLoop)
    }

    constructor ()
      ensures Valid() && Queue() == []
    {
      suspendedTaskIDs, suspendedTasksByTaskID, tickLoop := [], map[], false;
    }

    method AddSuspendedTaskMeta(meta: Meta)
      requires Consistent() && meta.taskID !in Queue()
      modifies this`suspendedTaskIDs, this`suspendedTasksByTaskID
      ensures Consistent() && Queue() == old(Queue()) + [meta.taskID]
    {
      var taskID := meta.taskID;
      CompactAppend(suspendedTaskIDs, [Some(taskID)]);
      assert Compact([Some(taskID)]) == [taskID];
      suspendedTasksByTaskID := suspendedTasksByTaskID[taskID := meta];
      suspendedTaskIDs := suspendedTaskIDs + [Some(taskID)];
      if |suspendedTasksByTaskID| < |suspendedTaskIDs| - 10 {
        CompactWhole(Compact(suspendedTaskIDs));
        suspendedTaskIDs := Whole(Compact(suspendedTaskIDs));
      }
    }

    /** `findIndex(t => t === taskID)`; `None` stands for -1. */
    method FindIndex(taskID: TaskId) returns (idx: Option<nat>)
      ensures idx.Some? ==> idx.value < |suspendedTaskIDs| && suspendedTaskIDs[idx.value] == Some(taskID)
      ensures idx.None? ==> taskID !in Queue()
    {
      InCompact(suspendedTaskIDs, taskID);
      var i := 0;
      while i < |suspendedTaskIDs|
        invariant i <= |suspendedTaskIDs| && Some(taskID) !in suspendedTaskIDs[..i]
      {
        if suspendedTaskIDs[i] == Some(taskID) {
          return Some(i);
        }
        i := i + 1;
      }
      return None;
    }

    /** Takes the task out of the queue; an unknown task leaves everything as it is. */
    method RemoveSuspendedTaskMeta(taskID: TaskId) returns (meta: Option<Meta>)
      requires Consistent()
      modifies this`suspendedTaskIDs, this`suspendedTasksByTaskID
      ensures Consistent()
      ensures meta == if taskID in old(Queue()) then Some(Meta(taskID)) else None
      ensures taskID !in old(Queue()) ==> Queue() == old(Queue())
      ensures forall i :: 0 <= i < |old(Queue())| && old(Queue())[i] == taskID ==> Queue() == RemoveAt(old(Queue()), i)
    {
      ghost var q := Queue();
      var idx := FindIndex(taskID);
      meta := None;
      if taskID in suspendedTasksByTaskID {
        meta := Some(suspendedTasksByTaskID[taskID]);
      }
      if idx.Some? {
        Tombstone(suspendedTaskIDs, idx.value);
        RemoveAtKeeps(q, |Compact(suspendedTaskIDs[..idx.value])|);
        suspendedTaskIDs := suspendedTaskIDs[idx.value := None];
      }
      suspendedTasksByTaskID := suspendedTasksByTaskID - {taskID};
    }

    method SuspendTask(taskID: TaskId) returns (r: Result<(), SchedulerError>)
      requires Valid()
      modifies this
      ensures Valid()
      ensures Queue() == Step(old(Queue()), Suspend(taskID))
      ensures r == if taskID in old(Queue()) then Err(AlreadySuspended) else Ok(())
    {
      if taskID in suspendedTasksByTaskID {
        return Err(AlreadySuspended);
      }
      AddSuspendedTaskMeta(Meta(taskID));
      RunTickLoop();
      return Ok(());
    }

    method RunTickLoop()
      modifies this`tickLoop
      ensures tickLoop
    {
      if tickLoop {
        return;
      }
      tickLoop := true;
    }

    /** The outcome is the task whose promise is resolved, if any. */
    method ResumeTaskByID(taskID: TaskId) returns (resumed: Option<TaskId>)
      requires Consistent()
      modifies this`suspendedTaskIDs, this`suspendedTasksByTaskID
      ensures Consistent()
      ensures resumed == if taskID in old(Queue()) then Some(taskID) else None
      ensures taskID !in old(Queue()) ==> Queue() == old(Queue())
      ensures forall i :: 0 <= i < |old(Queue())| && old(Queue())[i] == taskID ==> Queue() == RemoveAt(old(Queue()), i)
    {
      var meta := RemoveSuspendedTaskMeta(taskID);
      if meta.None? {
        return None;
      }
      return Some(meta.value.taskID);
    }

    /**
     One tick: the earliest suspended task that is rejected or ready is resumed, and
     no other.  The "missing task" error is not among the outcomes.
     */
    method Tick(ready: set<TaskId>, rejected: set<TaskId>)
      returns (r: Result<TickResult, SchedulerError>, resumed: Option<TaskId>)
      requires Consistent()
      modifies this`suspendedTaskIDs, this`suspendedTasksByTaskID
      ensures Consistent()
      ensures Queue() == AfterTick(old(Queue()), ready + rejected)
      ensures var q, i := old(Queue()), FirstAwake(old(Queue()), ready + rejected);
              && resumed == (if i < |q| then Some(q[i]) else None)
              && r == Ok(if i < |q| then RESUMED else if q != [] then IDLE else DONE)
    {
      hide Consistent, Compact, RemoveAt;
      ghost var awake := ready + rejected;
      resumed := None;
      var resumableTasks := Compact(suspendedTaskIDs);
      var i := 0;
      while i < |resumableTasks|
        invariant i <= FirstAwake(resumableTasks, awake)
        invariant Consistent() && Queue() == resumableTasks == old(Queue())
      {
        var taskID := resumableTasks[i];
        HasMeta(taskID);
        if taskID !in suspendedTasksByTaskID {
          return Err(MissingTask), None;
        }
        if taskID in rejected {
          resumed := ResumeTaskByID(taskID);
          return Ok(RESUMED), resumed;
        }
        if taskID in ready {
          resumed := ResumeTaskByID(taskID);
          return Ok(RESUMED), resumed;
        }
        i := i + 1;
      }
      var idle := |Compact(suspendedTaskIDs)| > 0;
      return Ok(if idle then IDLE else DONE), None;
    }

    lemma HasMeta(t: TaskId)
      requires Consistent() && t in Queue()
      ensures t in suspendedTasksByTaskID
    {
    }

    /** One turn of the tick loop; it ends when nothing is suspended. */
    method LoopTurn(ready: set<TaskId>, rejected: set<TaskId>) returns (resumed: Option<TaskId>)
      requires Valid() && tickLoop
      modifies this
      ensures Valid()
      ensures Queue() == Step(old(Queue()), Event.Tick(ready + rejected))
      ensures tickLoop == (resumed.Some? || Queue() != [])
    {
      var result;
      result, resumed := Tick(ready, rejected);
      if result == Ok(DONE) {
        tickLoop := false;
      }
    }
  }
}
