/**
 The export wrapper (`evaluate`): what one call of an export does to its task, to the
 component's lock and to the component's flags, however the call ends.

 While the guest runs, host code may call exports of the same component again; those
 calls find the lock held and enter without it.
 */
module ExportCall {
  import opened Wrappers
  import opened Locks
  import opened Programs

  datatype TaskState = INITIAL | RESOLVED

  /** A call that finds the lock free gives it back; one that finds it held leaves it alone. */
  function AfterLock(l: Lock, trapped: bool): Lock {
    if trapped || l.holder != None then l else ScheduleHandoff(l)
  }

  // ----- the objects ----------------------------------------------------------------------

  class Component {
    const lock: ComponentLock
    var trapped: bool
    var mayLeave: bool
    var nextTaskID: nat
    /** How many tasks entered and exited, and what happened so far. */
    ghost var entered: nat
    ghost var exited: nat
    ghost var trace: seq<Programs.Event>

    ghost function GetFlags(): Flags
      reads this
    {
      Flags(trapped, mayLeave)
    }

    /** Task ids are fresh: the next one is not the holder's. */
    ghost predicate Valid()
      reads this, lock
    {
      lock.Valid() && (lock.State().holder.Some? ==> lock.State().holder.value < nextTaskID)
    }

    constructor ()
      ensures Valid() && lock.State() == UNLOCKED && GetFlags() == Flags(false, true)
      ensures entered == exited == 0 && trace == []
    {
      lock := new ComponentLock();
      trapped, mayLeave, nextTaskID, entered, exited, trace := false, true, 0, 0, 0, [];
    }

    /** `markTrapped`: true for a runtime error, which traps the component. */
    method MarkTrapped(kind: ErrorKind) returns (marked: bool)
      modifies this`trapped, this`trace
      ensures GetFlags() == Mark(old(GetFlags()), kind) && trace == old(trace) + [Marked(kind)]
      ensures marked == (kind == RuntimeError)
    {
      trace := trace + [Marked(kind)];
      if kind != RuntimeError {
        return false;
      }
      trapped := true;
      return true;
    }

    /** The post-return function runs while the component may not leave; `error` is what it throws. */
    method PostReturn(error: Option<ErrorKind>) returns (ok: bool)
      modifies this`mayLeave, this`trace
      ensures ok == (error == None) && mayLeave == ok && trace == old(trace) + [PostReturned(ok)]
    {
      mayLeave := false;
      trace := trace + [PostReturned(error == None)];
      if error.Some? {
        return false;
      }
      mayLeave := true;
      return true;
    }
  }

  class ExportTask {
    const id: TaskId
    var state: TaskState
    var rejected: bool
    var lockFreeEntry: bool
    var exited: bool
    /** How often the task has exited. */
    ghost var exits: nat

    constructor (id: TaskId)
      ensures this.id == id && state == INITIAL && !rejected && !lockFreeEntry && !exited && exits == 0
    {
      this.id, state, rejected, lockFreeEntry, exited, exits := id, INITIAL, false, false, false, 0;
    }

    method EnterSync(lock: ComponentLock)
      modifies this`lockFreeEntry, lock`holderTaskID
      ensures lockFreeEntry == (old(lockFreeEntry) || old(lock.State()).holder != None)
      ensures lock.State() == Step(old(lock.State()), ExclusiveLock(id))
    {
      var locked := lock.IsExclusivelyLocked();
      if !locked {
        var _ := lock.ExclusiveLock(id);
      } else {
        lockFreeEntry := true;
      }
    }

    method Reject()
      modifies this`state, this`rejected
      ensures state == RESOLVED && rejected == (old(rejected) || old(state) == INITIAL)
    {
      if state == RESOLVED {
        return;
      }
      rejected := true;
      state := RESOLVED;
    }

    method Resolve() returns (r: Result<(), Failure>)
      modifies this`state
      ensures r == if old(state) == RESOLVED then Err(AlreadyResolved) else Ok(())
      ensures state == RESOLVED
    {
      if state == RESOLVED {
        return Err(AlreadyResolved);
      }
      state := RESOLVED;
      return Ok(());
    }

    /** A failed exit changes nothing. */
    method Exit(c: Component, skipExclusiveLockCheck: bool) returns (r: Result<(), Failure>)
      requires c.lock.Valid()
      modifies this`exited, this`exits, c`exited, c.lock
      ensures c.lock.Valid()
      ensures var l := old(c.lock.State());
              r == if old(exited) then Err(AlreadyExited)
                   else if state != RESOLVED then Err(NotResolved)
                   else if !skipExclusiveLockCheck && !lockFreeEntry && l.holder != Some(id) then Err(LockNotHeld)
                   else Ok(())
      ensures r.Err? ==> exited == old(exited) && exits == old(exits) && c.exited == old(c.exited)
                         && c.lock.State() == old(c.lock.State())
      ensures r.Ok? ==> exited && exits == old(exits) + 1 && c.exited == old(c.exited) + 1
                        && c.lock.State() == LeftLock(old(c.lock.State()), id)
    {
      if exited {
        return Err(AlreadyExited);
      }
      if state != RESOLVED {
        return Err(NotResolved);
      }
      if !skipExclusiveLockCheck && !lockFreeEntry {
        var mine := c.lock.ExclusivelyLockedBy(id);
        if !mine {
          return Err(LockNotHeld);
        }
      }
      ReleaseLeaves(c.lock.State(), id, Unfold(c.lock.Pending()));
      var _ := c.lock.ExclusiveRelease(id);
      exited := true;
      exits := exits + 1;
      c.exited := c.exited + 1;
      return Ok(());
    }
  }

  /** The lock after a task is done with it: its own hold is released, another's is not. */
  function LeftLock(l: Lock, t: TaskId): Lock {
    if l.holder == Some(t) then ScheduleHandoff(l.(holder := None)) else l
  }

  lemma ReleaseLeaves(l: Lock, t: TaskId, hs: seq<Handler>)
    ensures Run(l, ReleaseTrace(l, t, hs)) == LeftLock(l, t)
  {
    if l.holder == Some(t) { ReleaseFrees(l, t, hs); } else { ReleaseForeign(l, t, hs); }
  }

  /** The state of an entered task's lock: its own hold, or the one it found. */
  ghost predicate Inside(l: Lock, t: TaskId, lockFree: bool) {
    l.holder != None && (l.holder == Some(t) <==> !lockFree)
  }

  /**
   One call of the export.  On every outcome its task, if one was created, is resolved
   and exits exactly once, and the lock is as before: a free lock is free again, with a
   hand-off scheduled if a task waits, and a lock held by another task still is.
   */
  method Evaluate(c: Component, g: Guest) returns (r: Result<Answer, Failure>, task: ExportTask?)
    requires c.Valid()
    modifies c, c.lock
    ensures c.Valid() && c.nextTaskID >= old(c.nextTaskID)
    ensures var run := ExportRun(old(c.GetFlags()), g);
            r == run.result && c.GetFlags() == run.flags && c.trace == old(c.trace) + run.trace
    ensures var ended := GuestRun(old(c.GetFlags()), g.calls).result;
            AnswerTable(r, old(c.trapped), g, !old(c.trapped) && g.lowering == None && ended == None)
    ensures c.lock.State() == AfterLock(old(c.lock.State()), old(c.trapped))
    ensures var l := old(c.lock.State());
            var due := !old(c.trapped) && l.holder == None && l.waiters != [];
            c.lock.State() == l.(scheduled := l.scheduled || due)
    ensures task == null <==> old(c.trapped)
    ensures task != null ==> fresh(task) && task.state == RESOLVED && task.exited && task.exits == 1
    ensures task != null ==> task.rejected == (r.Err? && r != Err(PostReturnError))
    ensures c.entered - old(c.entered) == c.exited - old(c.exited)
    decreases g, 2
  {
    AnswerExact(c.GetFlags(), g);
    hide AnswerTable, ExportRun, GuestRun;
    if c.trapped {
      Refused(c.GetFlags(), g);
      return Err(ComponentTrapped), null;
    }
    var t := new ExportTask(c.nextTaskID);
    task := t;
    c.nextTaskID := c.nextTaskID + 1;
    c.entered := c.entered + 1;
    t.EnterSync(c.lock);
    r := Guarded(c, g, t);
    if r.Err? {
      if t.state != RESOLVED {
        t.Reject();
      }
      if !t.exited {
        var _ := t.Exit(c, true);
      }
    }
  }

  lemma Refused(fl: Flags, g: Guest)
    requires fl.trapped
    ensures ExportRun(fl, g) == Course(fl, [], Err(ComponentTrapped))
  {
  }

  /** The body of the wrapper's `try`. */
  method Guarded(c: Component, g: Guest, t: ExportTask) returns (r: Result<Answer, Failure>)
    requires c.Valid() && !c.trapped && t.id < c.nextTaskID
    requires t.state == INITIAL && !t.rejected && !t.exited && t.exits == 0
    requires Inside(c.lock.State(), t.id, t.lockFreeEntry)
    modifies c, c.lock, t
    ensures c.Valid() && c.nextTaskID >= old(c.nextTaskID) && t.lockFreeEntry == old(t.lockFreeEntry)
    ensures var run := ExportRun(old(c.GetFlags()), g);
            r == run.result && c.GetFlags() == run.flags && c.trace == old(c.trace) + run.trace
    ensures AnswerTable(r, false, g, g.lowering == None && GuestRun(old(c.GetFlags()), g.calls).result == None)
    ensures t.exits == (if t.exited then 1 else 0) && (t.exited ==> t.state == RESOLVED) && (r.Ok? ==> t.exited)
    ensures t.rejected == (r == Err(GuestThrew))
    ensures t.state == RESOLVED <==> r.Ok? || r == Err(GuestThrew) || r == Err(PostReturnError)
    ensures c.lock.State() == if t.exited then LeftLock(old(c.lock.State()), t.id) else old(c.lock.State())
    ensures c.exited - old(c.exited) == c.entered - old(c.entered) + t.exits
    decreases g, 1
  {
    AnswerExact(c.GetFlags(), g);
    hide AnswerTable;
    if g.lowering.Some? {
      return Err(LoweringError);
    }
    hide GuestRun, LeftLock;
    var ended := CallWasm(c, g.calls, t);
    var thrown := GuestError(ended, g.end);
    if thrown.Some? {
      var _ := c.MarkTrapped(thrown.value);
      t.Reject();
      var _ := t.Exit(c, false);
      return Err(GuestThrew);
    }
    if g.end.Throws? || g.end.area == OtherTag {
      return Err(InvalidDiscriminant);
    }
    var resolved := t.Resolve();
    if resolved.Err? {
      return Err(AlreadyResolved);
    }
    var ok := c.PostReturn(g.end.postReturn);
    if !ok {
      return Err(PostReturnError);
    }
    var _ := t.Exit(c, false);
    return Ok(Answer(g.end.area.OkTag?, g.end.area.payload));
  }

  /**
   The guest's run.  Its task is resolved meanwhile only by a rejection, and that unwinds
   the guest, so that resolving it afterwards never fails.
   */
  method CallWasm(c: Component, cs: seq<HostCall>, t: ExportTask) returns (ended: Option<HostOutcome>)
    requires c.Valid() && t.state == INITIAL && !t.rejected && c.lock.State().holder != None
    modifies c, c.lock, t`state, t`rejected
    ensures c.Valid() && c.nextTaskID >= old(c.nextTaskID) && (t.rejected <==> t.state == RESOLVED)
    ensures var run := GuestRun(old(c.GetFlags()), cs);
            ended == run.result && c.GetFlags() == run.flags && c.trace == old(c.trace) + run.trace
    ensures if ended == None then t.state == INITIAL else Thrown(ended.value).Some?
    ensures c.lock.State() == old(c.lock.State())
    ensures c.entered - old(c.entered) == c.exited - old(c.exited)
    decreases cs, 0
  {
    if cs == [] {
      return None;
    }
    var o := CallHost(c, cs[0], t);
    if Thrown(o).Some? {
      return Some(o);
    }
    ended := CallWasm(c, cs[1..], t);
  }

  /** One host call: the check that the component may leave, the callbacks, and the trampoline's end. */
  method CallHost(c: Component, call: HostCall, t: ExportTask) returns (o: HostOutcome)
    requires c.Valid() && t.state == INITIAL && !t.rejected && c.lock.State().holder != None
    modifies c, c.lock, t`state, t`rejected
    ensures c.Valid() && c.nextTaskID >= old(c.nextTaskID) && (t.rejected <==> t.state == RESOLVED)
    ensures var run := HostRun(old(c.GetFlags()), call);
            o == run.result && c.GetFlags() == run.flags && c.trace == old(c.trace) + run.trace
    ensures t.state == if o.Rejected? then RESOLVED else INITIAL
    ensures c.lock.State() == old(c.lock.State())
    ensures c.entered - old(c.entered) == c.exited - old(c.exited)
    decreases call, 0
  {
    if !c.mayLeave {
      c.trace := c.trace + [HostEnded(Denied)];
      return Denied;
    }
    if !call.end.ArgumentsFail? {
      Callbacks(c, call.callbacks);
      if call.end.Raises? {
        var marked := c.MarkTrapped(call.end.kind);
        if call.handling == PassOn {
          t.Reject();
        }
      }
    }
    o := OutcomeOf(call);
    c.trace := c.trace + [HostEnded(o)];
  }

  /** The exports a host function calls while the outer guest runs: each enters without the lock. */
  method Callbacks(c: Component, gs: seq<Guest>)
    requires c.Valid() && c.lock.State().holder != None
    modifies c, c.lock
    ensures c.Valid() && c.nextTaskID >= old(c.nextTaskID)
    ensures var run := ExportRuns(old(c.GetFlags()), gs);
            c.GetFlags() == run.flags && c.trace == old(c.trace) + run.trace
    ensures c.lock.State() == old(c.lock.State())
    ensures c.entered - old(c.entered) == c.exited - old(c.exited)
    decreases gs, 0
  {
    if gs != [] {
      var _, _ := Evaluate(c, gs[0]);
      Callbacks(c, gs[1..]);
    }
  }
}
