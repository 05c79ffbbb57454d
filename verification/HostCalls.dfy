/**
 Synchronous host calls (`_lowerImportBackwardsCompat`, the host trampolines and the
 part of the export wrapper that surrounds them), and what they leave of the tasks,
 the subtasks and the component's handles.

 A guest's call to a host function lists a subtask with the calling task, gives it a
 handle, and runs the host function in a task of its own.  The trampoline then resolves
 that task, rejects it, or lets an exception pass it by.
 */
module HostCalls {
  import opened Wrappers
  import RepTables
  import opened Tasks
  import opened Programs

  // ----- what a call leaves behind ----------------------------------------------------

  /** `w'` has everything `w` has, unchanged. */
  ghost predicate Agree(w: World, w': World) {
    && (forall u {:trigger u in w'.tasks} {:trigger w'.tasks[u]} ::
          u in w.tasks ==> u in w'.tasks && w'.tasks[u] == w.tasks[u])
    && (forall s {:trigger s in w'.subs} {:trigger w'.subs[s]} ::
          s in w.subs ==> s in w'.subs && w'.subs[s] == w.subs[s])
    && (forall k {:trigger k in w'.live} {:trigger w'.live[k]} ::
          k in w.live ==> k in w'.live && w'.live[k] == w.live[k])
  }

  ghost predicate Fresh(w: World, s: Subtask, rep: nat) {
    s !in w.subs && s.parentTask in w.tasks && rep !in w.live
  }

  /** The world in which the new subtask `s` has started. */
  ghost function Begun(w: World, s: Subtask, rep: nat): (w': World)
    requires Wf(w) && Fresh(w, s, rep)
    ensures Wf(w')
  {
    CreateSubWf(w, s, rep);
    AfterStart(Enlist(w, s, rep), s)
  }

  /** `w'` has what `w` has, and a call of `caller` under way that will never end. */
  ghost predicate Dangles(w: World, w': World, caller: Task, s: Subtask)
    requires s in w'.subs
  {
    var rep := w'.subs[s].rep;
    Wf(w) && Fresh(w, s, rep) && s.parentTask == caller && Agree(Begun(w, s, rep), w')
  }

  ghost predicate Pending(w: World, w': World, caller: Task) {
    exists s {:trigger Dangles(w, w', caller, s)} :: s in w'.subs && Dangles(w, w', caller, s)
  }

  /**
   The effect of a call from `caller`, by its outcome.  A call that is refused or returns
   changes nothing that was there before.  One that is rejected rejects its caller and
   does no more.  One that escapes stays in the caller's list, with its handle, and does
   not touch the caller otherwise.  `n` handles more are in use than before.
   */
  ghost predicate Left(w: World, w': World, caller: Task, o: HostOutcome, n: nat)
    requires Wf(w) && caller in w.tasks
  {
    && |w'.live| == |w.live| + n
    && match o
       case Rejected(_) => Agree(AfterReject(w, caller), w')
       case Escaped(_) => Pending(w, w', caller)
       case _ => Agree(w, w')
  }

  lemma AgreeSet(w: World, w': World, t: Task, r: TaskRec)
    requires Agree(w, w')
    ensures Agree(SetTask(w, t, r), SetTask(w', t, r))
  {
  }

  lemma AgreeRetire(w: World, w': World, s: Subtask, r: SubRec)
    requires Agree(w, w') && s.parentTask in w.tasks
    ensures Agree(Retire(w, s, r), Retire(w', s, r))
  {
    hide Without;
  }

  lemma AgreeFinish(w: World, w': World, t: Task)
    requires Agree(w, w') && t in w.tasks
    ensures Agree(Finish(w, t), Finish(w', t))
  {
  }

  /** A rejection sees only what is reachable from its task. */
  lemma {:induction false} RejectLocal(w: World, w': World, t: Task)
    requires Wf(w) && Wf(w') && Agree(w, w') && t in w.tasks
    ensures Agree(AfterReject(w, t), AfterReject(w', t))
    decreases t.depth, 1
  {
    hide AfterReject, AfterRejectSub, RejectedRec, TaskSound, SubSound;
    assert w'.tasks[t] == w.tasks[t];
    if Settled(w.tasks[t]) {
      RejectSettled(w, t);
      RejectSettled(w', t);
    } else {
      var s := t.parentSubtask;
      assert s != null ==> s.parentTask.depth < t.depth;
      hide Wf, Agree;
      RejectAtOnce(w, t);
      RejectAtOnce(w', t);
      AgreeSet(w, w', t, RejectedRec(w.tasks[t]));
      if s != null {
        RejectSubLocal(Rejecting(w, t), Rejecting(w', t), s);
        AgreeFinish(AfterRejectSub(Rejecting(w, t), s), AfterRejectSub(Rejecting(w', t), s), t);
      } else {
        AgreeFinish(Rejecting(w, t), Rejecting(w', t), t);
      }
    }
  }

  lemma RejectSettled(w: World, t: Task)
    requires Wf(w) && t in w.tasks && Settled(w.tasks[t])
    ensures AfterReject(w, t) == w
  {
  }

  lemma {:induction false} RejectSubLocal(w: World, w': World, s: Subtask)
    requires Wf(w) && Wf(w') && Agree(w, w') && s in w.subs
    ensures Agree(AfterRejectSub(w, s), AfterRejectSub(w', s))
    decreases s.parentTask.depth, 2
  {
    hide Wf, AfterReject, AfterRejectSub, Retire;
    RejectSubUnfold(w, s);
    RejectSubUnfold(w', s);
    assert w'.subs[s] == w.subs[s];
    var r := w.subs[s];
    hide Agree;
    if !r.resolved {
      AgreeRetire(w, w', s, RejectedSubRec(r));
      RejectLocal(Retire(w, s, RejectedSubRec(r)), Retire(w', s, RejectedSubRec(r)), s.parentTask);
    }
  }

  // ----- one call -----------------------------------------------------------------------

  /** The call is under way: its subtask has started and its host task exists. */
  ghost function Entered(w: World, s: Subtask, rep: nat, t: Task): (w': World)
    requires Wf(w) && s !in w.subs && s.parentTask in w.tasks && rep !in w.live && t !in w.tasks
    requires t.parentSubtask == s && s.parentTask.depth < t.depth
    ensures Wf(w')
  {
    CreateSubWf(w, s, rep);
    StartUnfold(Enlist(w, s, rep), s);
    CreateTaskWf(AfterStart(Enlist(w, s, rep), s), t, 0);
    SetTask(AfterStart(Enlist(w, s, rep), s), t, NewTaskRec(0))
  }

  lemma EnteredFacts(w: World, s: Subtask, rep: nat, t: Task)
    requires Wf(w) && s !in w.subs && s.parentTask in w.tasks && rep !in w.live && t !in w.tasks
    requires t.parentSubtask == s && s.parentTask.depth < t.depth
    ensures var w', p := Entered(w, s, rep, t), s.parentTask;
            && w' == World(w.tasks[p := w.tasks[p].(subtasks := w.tasks[p].subtasks + [s])][t := NewTaskRec(0)],
                           w.subs[s := StartedRec(NewSubRec(rep))], w.live[rep := s])
            && |w'.live| == |w.live| + 1 && s !in w.tasks[p].subtasks
  {
    assert TaskSound(w, s.parentTask);
    CreateSubWf(w, s, rep);
    StartUnfold(Enlist(w, s, rep), s);
    hide Wf;
  }

  lemma WithoutLast<T>(l: seq<T>, s: T)
    requires s !in l
    ensures Without(l + [s], s) == l
  {
    if l != [] {
      WithoutLast(l[1..], s);
      assert (l + [s])[1..] == l[1..] + [s];
    }
  }

  /** `w'` agrees with the world in which `t` runs the host function for `s`. */
  ghost predicate Running(w: World, s: Subtask, rep: nat, t: Task, w': World) {
    && Wf(w) && s !in w.subs && s.parentTask in w.tasks && rep !in w.live && t !in w.tasks
    && t.parentSubtask == s && s.parentTask.depth < t.depth
    && Wf(w') && Agree(Entered(w, s, rep, t), w')
  }

  lemma RunningFacts(w: World, s: Subtask, rep: nat, t: Task, w': World)
    requires Running(w, s, rep, t, w')
    ensures Wf(w) && Wf(w') && s !in w.subs && rep !in w.live && t !in w.tasks && t.parentSubtask == s
    ensures s.parentTask in w.tasks && s.parentTask != t && Within(w, s, rep, t, w') && Listed(w, s, w')
  {
    hide Wf, Agree, Entered, Within, Listed;
    EnteredFacts(w, s, rep, t);
    CalledWithin(w, s, rep, t, Entered(w, s, rep, t), w');
  }

  ghost predicate Listed(w: World, s: Subtask, w': World) {
    && s.parentTask in w.tasks && s.parentTask in w'.tasks
    && w'.tasks[s.parentTask] == w.tasks[s.parentTask].(subtasks := w.tasks[s.parentTask].subtasks + [s])
  }

  lemma CalledWithin(w: World, s: Subtask, rep: nat, t: Task, e: World, w': World)
    requires s !in w.subs && s.parentTask in w.tasks && rep !in w.live && t !in w.tasks && Agree(e, w')
    requires var p := s.parentTask;
             && e == World(w.tasks[p := w.tasks[p].(subtasks := w.tasks[p].subtasks + [s])][t := NewTaskRec(0)],
                           w.subs[s := StartedRec(NewSubRec(rep))], w.live[rep := s])
             && s !in w.tasks[p].subtasks
    ensures Within(w, s, rep, t, w') && Listed(w, s, w')
  {
    hide Without;
    var p := s.parentTask;
    WithoutLast(w.tasks[p].subtasks, s);
    assert p in e.tasks && t in e.tasks && s in e.subs && rep in e.live;
  }

  /** `w'` has what `w` has, the call of `s` by `t`, and perhaps more. */
  ghost predicate Within(w: World, s: Subtask, rep: nat, t: Task, w': World) {
    var p := s.parentTask;
    && p in w.tasks && t in w'.tasks && w'.tasks[t] == NewTaskRec(0)
    && s in w'.subs && w'.subs[s] == StartedRec(NewSubRec(rep))
    && p in w'.tasks && p != t && WithoutSub(w'.tasks[p], s) == w.tasks[p] && rep in w'.live
    && (forall u :: u in w.tasks && u != p ==> u in w'.tasks && w'.tasks[u] == w.tasks[u])
    && (forall x :: x in w.subs ==> x in w'.subs && w'.subs[x] == w.subs[x])
    && (forall k :: k in w.live ==> k in w'.live && w'.live[k] == w.live[k])
  }

  /** The caller's world after a call that returned `v`. */
  ghost predicate Handed(w: World, w': World, w5: World, s: Subtask, v: JsValue) {
    && Agree(w, w5) && |w5.live| == |w'.live| - 1
    && s in w5.subs && w5.subs[s].state == RETURNED && w5.subs[s].result == Some(v)
  }

  /** The host function returned: the handle and the list entry are gone again. */
  lemma CallReturned(w: World, s: Subtask, rep: nat, t: Task, w': World, v: JsValue)
    requires Running(w, s, rep, t, w') && !s.isAsync
    ensures Wf(w') && t in w'.tasks && w'.tasks[t] == NewTaskRec(0)
    ensures Handed(w, w', AfterTaskResolve(w', t, v), s, v)
  {
    hide Wf, Running, AfterTaskResolve, AfterOnResolve, AfterResolve, Agree, Without, WithoutSub, Handed, LeftParent;
    RunningFacts(w, s, rep, t, w');
    ResolveUnfold(w', t, v);
    var w1 := Finish(w', t);
    OnResolveUnfold(w1, t, v);
    var w2 := SetTask(w1, t, FiredRec(w1.tasks[t]));
    ResolveAssembled(w2, s, v);
    assert w2 == SetTask(w', t, w2.tasks[t]);
    Delivered(w, s, rep, t, w', w2, v);
  }

  ghost predicate CanDeliver(s: Subtask, w2: World, v: JsValue) {
    s in w2.subs && s.parentTask in w2.tasks && ResolvedState(w2.subs[s], v) == Some(RETURNED)
  }

  lemma Delivered(w: World, s: Subtask, rep: nat, t: Task, w': World, w2: World, v: JsValue)
    requires Within(w, s, rep, t, w') && !s.isAsync && s !in w.subs && rep !in w.live && t !in w.tasks
    requires t in w2.tasks && w2 == SetTask(w', t, w2.tasks[t])
    ensures CanDeliver(s, w2, v) && Handed(w, w', LeftParent(Concluded(w2, s, v), s), s, v)
  {
    hide Without, WithoutSub;
    var w5 := LeftParent(Concluded(w2, s, v), s);
    assert w5.live == w'.live - {rep};
    assert w5.live.Keys == w'.live.Keys - {rep};
    assert |w5.live.Keys| == |w5.live| && |w'.live.Keys| == |w'.live|;
  }

  /** The host function threw: its caller is rejected, and the handle stays. */
  lemma CallRejected(w: World, s: Subtask, rep: nat, t: Task, w': World)
    requires Running(w, s, rep, t, w')
    ensures Wf(w) && s.parentTask in w.tasks && Wf(w') && t in w'.tasks
    ensures Agree(AfterReject(w, s.parentTask), AfterReject(w', t))
  {
    hide Wf, Running, AfterReject, Agree, Without, WithoutSub, RejectStep;
    RunningFacts(w, s, rep, t, w');
    RejectUnfold(w', t);
    StepDown(w, s, rep, t, w');
    RejectLocal(w, RejectStep(w', t), s.parentTask);
    Beyond(w, RejectStep(w', t), s.parentTask, t);
  }

  lemma StepDown(w: World, s: Subtask, rep: nat, t: Task, w': World)
    requires Wf(w) && Wf(w') && Within(w, s, rep, t, w') && t.parentSubtask == s && t !in w.tasks && s !in w.subs
    ensures Agree(w, RejectStep(w', t))
  {
    hide Wf, Without, WithoutSub;
    var x := RejectStep(w', t);
  }

  lemma Beyond(w: World, x: World, p: Task, t: Task)
    requires Wf(w) && Wf(x) && p in w.tasks && p in x.tasks && t !in w.tasks && t in x.tasks
    requires Agree(AfterReject(w, p), AfterReject(x, p))
    ensures Agree(AfterReject(w, p), Finish(AfterReject(x, p), t))
  {
    hide Wf;
  }

  // ----- the calls themselves -------------------------------------------------------------

  lemma AddSub(f: Forest, s: Subtask, w: World)
    requires f.handles.Valid() && Wf(w) && s !in w.subs && s.parentTask in w.tasks && s.rep !in w.live
    requires Snap(f) == Enlist(w, s, s.rep)
    ensures Good(f)
  {
    hide Wf;
    CreateSubWf(w, s, s.rep);
  }

  lemma AddTask(f: Forest, t: Task)
    requires Good(f) && t !in f.tasks && MayBack(Snap(f), t) && t.Rec() == NewTaskRec(0)
    ensures Good(f.(tasks := f.tasks + {t}))
    ensures Snap(f.(tasks := f.tasks + {t})) == SetTask(Snap(f), t, NewTaskRec(0))
  {
    hide Wf;
    var f' := f.(tasks := f.tasks + {t});
    CreateTaskWf(Snap(f), t, 0);
    assert Snap(f').tasks == Snap(f).tasks[t := NewTaskRec(0)];
  }

  ghost predicate Grows(f: Forest, f': Forest) {
    f.tasks <= f'.tasks && f.subs <= f'.subs && f'.handles == f.handles
  }

  /** The caller's side of a host call: a subtask with a handle, which starts at once. */
  method BeginCall(task: Task, handles: RepTables.RepTable<Subtask>, ghost f: Forest)
    returns (s: Subtask, ghost f': Forest)
    requires Good(f) && task in f.tasks && handles == f.handles
    modifies task`subtasks, handles
    ensures fresh(s) && f' == f.(subs := f.subs + {s}) && Good(f') && s.parentTask == task && !s.isAsync
    ensures s in f'.subs && task.subtasks == old(task.subtasks) + [s]
    ensures Wf(old(Snap(f))) && Fresh(old(Snap(f)), s, s.rep) && Snap(f') == Begun(old(Snap(f)), s, s.rep)
  {
    hide Good, Snap, Wf, Enlist, AfterStart, RepTables.RepTable.Valid;
    ghost var w := Snap(f);
    TaskAt(f, task);
    s := task.CreateSubtask(false, handles, f);
    f' := f.(subs := f.subs + {s});
    AddSub(f', s, w);
    SubAt(f', s);
    EnlistFacts(w, s, s.rep);
    s.OnStart(f');
  }

  /** The trampoline's side: a host task for the latest subtask of the caller. */
  method EnterHost(task: Task, s: Subtask, ghost f: Forest, ghost w: World) returns (host: Task, ghost f': Forest)
    requires Good(f) && s in f.subs && s.parentTask == task && task.subtasks != []
    requires task.subtasks[|task.subtasks| - 1] == s && w.tasks.Keys <= f.tasks
    requires Wf(w) && Fresh(w, s, s.rep) && Snap(f) == Begun(w, s, s.rep)
    ensures fresh(host) && f' == f.(tasks := f.tasks + {host}) && Good(f') && host in f'.tasks
    ensures Running(w, s, s.rep, host, Snap(f')) && Snap(f').live == Snap(f).live
  {
    hide Good, Snap, Wf, Running, Begun;
    var latest := task.GetLatestSubtask();
    host := new Task(latest, task.depth + 1, 0);
    f' := f.(tasks := f.tasks + {host});
    BegunBacks(w, s, s.rep, host);
    AddTask(f, host);
    NowRunning(w, s, s.rep, host);
  }

  lemma BegunBacks(w: World, s: Subtask, rep: nat, t: Task)
    requires Wf(w) && Fresh(w, s, rep) && t.parentSubtask == s && s.parentTask.depth < t.depth
    ensures MayBack(Begun(w, s, rep), t)
  {
    CreateSubWf(w, s, rep);
    StartUnfold(Enlist(w, s, rep), s);
    hide Wf;
  }

  lemma NowRunning(w: World, s: Subtask, rep: nat, t: Task)
    requires Wf(w) && Fresh(w, s, rep) && t !in w.tasks && t.parentSubtask == s && s.parentTask.depth < t.depth
    ensures Running(w, s, rep, t, SetTask(Begun(w, s, rep), t, NewTaskRec(0)))
  {
    hide Wf, AfterStart;
    EnteredFacts(w, s, rep, t);
    assert SetTask(Begun(w, s, rep), t, NewTaskRec(0)) == Entered(w, s, rep, t);
  }

  lemma EnlistFacts(w: World, s: Subtask, rep: nat)
    requires Wf(w) && Fresh(w, s, rep)
    ensures Wf(Enlist(w, s, rep)) && s in Enlist(w, s, rep).subs && Enlist(w, s, rep).subs[s].state == STARTING
  {
    CreateSubWf(w, s, rep);
    hide Wf;
  }

  lemma BegunLive(w: World, s: Subtask, rep: nat)
    requires Wf(w) && Fresh(w, s, rep)
    ensures |Begun(w, s, rep).live| == |w.live| + 1
  {
    CreateSubWf(w, s, rep);
    StartUnfold(Enlist(w, s, rep), s);
    hide Wf;
  }

  // ----- composition --------------------------------------------------------------------------

  lemma AgreeTrans(w: World, w1: World, w2: World)
    requires Agree(w, w1) && Agree(w1, w2)
    ensures Agree(w, w2)
  {
    assert forall u :: u in w.tasks ==> u in w1.tasks && u in w2.tasks;
    assert forall s :: s in w.subs ==> s in w1.subs && s in w2.subs;
    assert forall k :: k in w.live ==> k in w1.live && k in w2.live;
  }

  lemma StillRunning(w: World, s: Subtask, rep: nat, t: Task, w1: World, w2: World)
    requires Running(w, s, rep, t, w1) && Agree(w1, w2) && Wf(w2)
    ensures Running(w, s, rep, t, w2)
  {
    hide Wf, Agree;
    AgreeTrans(Entered(w, s, rep, t), w1, w2);
  }

  /** A host task that is left alone leaves its caller's call under way. */
  lemma Dangling(w: World, s: Subtask, rep: nat, t: Task, w': World)
    requires Running(w, s, rep, t, w')
    ensures s in w'.subs && Dangles(w, w', s.parentTask, s)
  {
    RunningSub(w, s, rep, t, w');
    hide Wf, Agree, Entered, Begun;
    EnteredOverBegun(w, s, rep, t);
    AgreeTrans(Begun(w, s, rep), Entered(w, s, rep, t), w');
  }

  lemma RunningSub(w: World, s: Subtask, rep: nat, t: Task, w': World)
    requires Running(w, s, rep, t, w')
    ensures s in w'.subs && w'.subs[s].rep == rep
  {
    hide Wf, Running, Agree;
    RunningFacts(w, s, rep, t, w');
  }

  lemma EnteredOverBegun(w: World, s: Subtask, rep: nat, t: Task)
    requires Wf(w) && Fresh(w, s, rep) && t !in w.tasks && t.parentSubtask == s && s.parentTask.depth < t.depth
    ensures Agree(Begun(w, s, rep), Entered(w, s, rep, t))
  {
    hide Wf, AfterStart;
    EnteredFacts(w, s, rep, t);
    BegunTasks(w, s, rep);
    assert Entered(w, s, rep, t) == SetTask(Begun(w, s, rep), t, NewTaskRec(0));
    hide Entered, Begun;
  }

  lemma BegunTasks(w: World, s: Subtask, rep: nat)
    requires Wf(w) && Fresh(w, s, rep)
    ensures Begun(w, s, rep).tasks.Keys == w.tasks.Keys
  {
    CreateSubWf(w, s, rep);
    StartUnfold(Enlist(w, s, rep), s);
    hide Wf;
  }

  /** A new call looks the same from every larger world. */
  lemma BegunLocal(w: World, w1: World, s: Subtask, rep: nat)
    requires Wf(w) && Wf(w1) && Agree(w, w1) && Fresh(w1, s, rep) && s.parentTask in w.tasks
    ensures Fresh(w, s, rep) && Agree(Begun(w, s, rep), Begun(w1, s, rep))
  {
    hide Wf;
    assert s !in w.subs && rep !in w.live;
    EnlistLocal(w, w1, s, rep);
    BegunIs(w, s, rep);
    BegunIs(w1, s, rep);
    hide Agree, Begun, Enlist;
    AgreeSub(Enlist(w, s, rep), Enlist(w1, s, rep), s, StartedRec(NewSubRec(rep)));
  }

  ghost function SetSub(w: World, s: Subtask, r: SubRec): World {
    w.(subs := w.subs[s := r])
  }

  lemma EnlistLocal(w: World, w1: World, s: Subtask, rep: nat)
    requires Agree(w, w1) && Fresh(w, s, rep) && Fresh(w1, s, rep)
    ensures Agree(Enlist(w, s, rep), Enlist(w1, s, rep))
  {
  }

  lemma AgreeSub(w: World, w1: World, s: Subtask, r: SubRec)
    requires Agree(w, w1)
    ensures Agree(SetSub(w, s, r), SetSub(w1, s, r))
  {
  }

  lemma BegunIs(w: World, s: Subtask, rep: nat)
    requires Wf(w) && Fresh(w, s, rep)
    ensures Begun(w, s, rep) == SetSub(Enlist(w, s, rep), s, StartedRec(NewSubRec(rep)))
  {
    hide Wf, AfterStart;
    EnlistFacts(w, s, rep);
    StartUnfold(Enlist(w, s, rep), s);
  }

  /** Calls that return, followed by one that ends as `o` says. */
  lemma LeftAlso(w: World, w1: World, w2: World, caller: Task, first: HostOutcome, o: HostOutcome, m: nat, n: nat)
    requires Wf(w) && Wf(w1) && caller in w.tasks && caller in w1.tasks && Thrown(first) == None
    requires Left(w, w1, caller, first, m) && Left(w1, w2, caller, o, n)
    ensures Left(w, w2, caller, o, m + n)
  {
    hide Wf, Agree, AfterReject, Pending;
    match o
    case Rejected(_) => RejectAlso(w, w1, w2, caller);
    case Escaped(_) => PendingAlso(w, w1, w2, caller);
    case _ => AgreeTrans(w, w1, w2);
  }

  lemma RejectAlso(w: World, w1: World, w2: World, caller: Task)
    requires Wf(w) && Wf(w1) && caller in w.tasks && caller in w1.tasks && Agree(w, w1)
    requires Agree(AfterReject(w1, caller), w2)
    ensures Agree(AfterReject(w, caller), w2)
  {
    assert Shaped(w) && Shaped(w1);
    hide Wf, Shaped, Agree, AfterReject;
    RejectLocal(w, w1, caller);
    AgreeTrans(AfterReject(w, caller), AfterReject(w1, caller), w2);
  }

  lemma PendingAlso(w: World, w1: World, w2: World, caller: Task)
    requires Wf(w) && Wf(w1) && caller in w.tasks && caller in w1.tasks && Agree(w, w1) && Pending(w1, w2, caller)
    ensures Pending(w, w2, caller)
  {
    hide Wf, Agree, Begun;
    var s :| s in w2.subs && Dangles(w1, w2, caller, s);
    var rep := w2.subs[s].rep;
    BegunLocal(w, w1, s, rep);
    AgreeTrans(Begun(w, s, rep), Begun(w1, s, rep), w2);
    assert Dangles(w, w2, caller, s);
  }

  lemma LeftNothing(w: World, caller: Task, o: HostOutcome)
    requires Wf(w) && caller in w.tasks && (o.Denied? || Thrown(o) == None)
    ensures Left(w, w, caller, o, 0)
  {
    hide Wf, AfterReject;
  }

  /** A task without a parent settles on its own: nothing else sees it resolve. */
  lemma RootResolves(w: World, w2: World, e: Task, v: JsValue)
    requires Wf(w2) && e !in w.tasks && e in w2.tasks && e.parentSubtask == null && Agree(w, w2)
    ensures Agree(w, AfterTaskResolve(w2, e, v)) && AfterTaskResolve(w2, e, v).live == w2.live
    ensures var w3 := AfterTaskResolve(w2, e, v);
            e in w3.tasks && w3.tasks[e].state == RESOLVED && w3.tasks[e].rejected == w2.tasks[e].rejected
  {
    hide Wf;
    ResolveUnfold(w2, e, v);
    FinishWf(w2, e);
    OnResolveUnfold(Finish(w2, e), e, v);
    assert AgreeSaveFor(w, w2, e);
    hide Agree, AfterTaskResolve, AfterOnResolve;
    SaveFor(w, w2, AfterTaskResolve(w2, e, v), e);
  }

  ghost predicate AgreeSaveFor(w: World, w2: World, e: Task) {
    Agree(w, w2) && e !in w.tasks
  }

  lemma SaveFor(w: World, w2: World, w3: World, e: Task)
    requires AgreeSaveFor(w, w2, e) && e in w3.tasks && w3 == SetTask(w2, e, w3.tasks[e])
    ensures Agree(w, w3)
  {
  }

  /** Nor does anything else see it rejected. */
  lemma RootRejects(w: World, w2: World, e: Task)
    requires Wf(w2) && e !in w.tasks && e in w2.tasks && e.parentSubtask == null && Agree(w, w2)
    ensures Agree(w, AfterReject(w2, e)) && AfterReject(w2, e).live == w2.live
    ensures var w3 := AfterReject(w2, e);
            && e in w3.tasks
            && if Settled(w2.tasks[e]) then w3 == w2 else w3.tasks[e].state == RESOLVED && w3.tasks[e].rejected
  {
    if Settled(w2.tasks[e]) {
      RejectSettled(w2, e);
    } else {
      RejectAtOnce(w2, e);
      assert AgreeSaveFor(w, w2, e);
      assert Shaped(w2);
      hide Wf, Shaped, Agree, AfterReject;
      SaveFor(w, w2, AfterReject(w2, e), e);
    }
  }

  /** Whatever the calls of a new root task did, the world before it is as it was. */
  lemma RootLeaves(w: World, w2: World, e: Task, o: HostOutcome, n: nat)
    requires Wf(w) && Wf(SetTask(w, e, NewTaskRec(0))) && e !in w.tasks && e.parentSubtask == null
    requires Left(SetTask(w, e, NewTaskRec(0)), w2, e, o, n)
    ensures Agree(w, w2) && |w2.live| == |w.live| + n
  {
    var w1 := SetTask(w, e, NewTaskRec(0));
    assert Agree(w, w1);
    match o
    case Rejected(_) =>
      RootRejects(w, w1, e);
      AgreeTrans(w, AfterReject(w1, e), w2);
    case Escaped(_) =>
      var s :| s in w2.subs && Dangles(w1, w2, e, s);
      var rep := w2.subs[s].rep;
      BegunAround(w, s, rep, e);
      AgreeTrans(w, Begun(w1, s, rep), w2);
    case _ => AgreeTrans(w, w1, w2);
  }

  lemma BegunAround(w: World, s: Subtask, rep: nat, e: Task)
    requires Wf(w) && Wf(SetTask(w, e, NewTaskRec(0))) && e !in w.tasks && s.parentTask == e
    requires Fresh(SetTask(w, e, NewTaskRec(0)), s, rep)
    ensures Agree(w, Begun(SetTask(w, e, NewTaskRec(0)), s, rep))
  {
    var w1 := SetTask(w, e, NewTaskRec(0));
    CreateSubWf(w1, s, rep);
    StartUnfold(Enlist(w1, s, rep), s);
    hide Wf;
  }

  // ----- the calls themselves -------------------------------------------------------------------

  lemma IsWf(f: Forest)
    ensures Good(f) ==> Wf(Snap(f))
    ensures Snap(f).tasks.Keys == f.tasks
  {
  }

  /**
   A synchronous host call from `task`.  Its outcome is the one the trampoline gives it,
   and its effect the one of that outcome; each call that ends without a return, at any
   depth below it, keeps one handle.
   */
  method LowerImport(task: Task, call: HostCall, fl: Flags, handles: RepTables.RepTable<Subtask>, ghost f: Forest)
    returns (o: HostOutcome, fl': Flags, ghost f': Forest)
    requires Good(f) && task in f.tasks && handles == f.handles
    modifies f.tasks, f.subs, f.handles
    ensures Grows(f, f') && fresh(f'.tasks - f.tasks) && fresh(f'.subs - f.subs) && Good(f')
    ensures o == HostRun(fl, call).result && fl' == HostRun(fl, call).flags
    ensures Wf(old(Snap(f))) && task in old(Snap(f)).tasks
    ensures Left(old(Snap(f)), Snap(f'), task, o, Losses(HostRun(fl, call).trace))
    decreases call, 1
  {
    hide Good, Snap, Wf, Begun, Left, AfterReject, Fresh, HostRun, Losses;
    ghost var w := Snap(f);
    TaskAt(f, task);
    if !fl.mayLeave {
      Refused(w, task, fl, call);
      return Denied, fl, f;
    }
    var s;
    s, f' := BeginCall(task, handles, f);
    ghost var rep := s.rep;
    if call.end.ArgumentsFail? {
      NeverEntered(w, Snap(f'), task, s, rep, fl, call);
      return OutcomeOf(call), fl, f';
    }
    o, fl', f' := RunHost(task, s, call, fl, handles, f', w);
  }

  /** The trampoline of a call under way: host task, callbacks, end. */
  method RunHost(task: Task, s: Subtask, call: HostCall, fl: Flags, handles: RepTables.RepTable<Subtask>,
                 ghost f: Forest, ghost w: World)
    returns (o: HostOutcome, fl': Flags, ghost f': Forest)
    requires Good(f) && s in f.subs && s.parentTask == task && task in f.tasks && handles == f.handles && !s.isAsync
    requires task.subtasks != [] && task.subtasks[|task.subtasks| - 1] == s && w.tasks.Keys <= f.tasks
    requires Wf(w) && task in w.tasks && Fresh(w, s, s.rep) && Snap(f) == Begun(w, s, s.rep)
    requires fl.mayLeave && !call.end.ArgumentsFail?
    modifies f.tasks, f.subs, f.handles
    ensures Grows(f, f') && fresh(f'.tasks - f.tasks) && fresh(f'.subs - f.subs) && Good(f')
    ensures o == HostRun(fl, call).result && fl' == HostRun(fl, call).flags
    ensures Left(w, Snap(f'), task, o, Losses(HostRun(fl, call).trace))
    decreases call, 0
  {
    hide Good, Snap, Wf, Running, Begun, Left, AfterReject, Fresh, Losses, OutcomeOf, Ended, Agree;
    ghost var rep := s.rep;
    var host;
    host, f' := EnterHost(task, s, f, w);
    ghost var w1 := Snap(f');
    ghost var roots;
    fl', f', roots := CallBacks(call.callbacks, fl, handles, f');
    ghost var w2 := Snap(f');
    IsWf(f');
    StillRunning(w, s, rep, host, w1, w2);
    o, fl' := Leave(s, host, call, fl', handles, f', w, rep);
    Accounted(w, w1, w2, Snap(f'), task, s, rep, fl, call);
  }

  /** What `Leave` does: the effect on the caller's world, counted from the handles at its start. */
  ghost predicate Ended(w: World, w2: World, w3: World, caller: Task, o: HostOutcome)
    requires Wf(w) && caller in w.tasks
  {
    match o
    case Rejected(_) => Agree(AfterReject(w, caller), w3) && |w3.live| == |w2.live|
    case Escaped(_) => Pending(w, w3, caller) && |w3.live| == |w2.live|
    case _ => Agree(w, w3) && |w3.live| == |w2.live| - 1
  }

  lemma Refused(w: World, task: Task, fl: Flags, call: HostCall)
    requires Wf(w) && task in w.tasks && !fl.mayLeave
    ensures HostRun(fl, call) == Course(fl, [HostEnded(Denied)], Denied)
    ensures Left(w, w, task, Denied, Losses([HostEnded(Denied)]))
  {
    LeftNothing(w, task, Denied);
  }

  lemma NeverEntered(w: World, w1: World, task: Task, s: Subtask, rep: nat, fl: Flags, call: HostCall)
    requires Wf(w) && task in w.tasks && Fresh(w, s, rep) && s.parentTask == task && w1 == Begun(w, s, rep)
    requires fl.mayLeave && call.end.ArgumentsFail?
    ensures HostRun(fl, call) == Course(fl, [HostEnded(OutcomeOf(call))], OutcomeOf(call))
    ensures Left(w, w1, task, OutcomeOf(call), Losses([HostEnded(OutcomeOf(call))]))
  {
    BegunLive(w, s, rep);
    BegunIs(w, s, rep);
    assert s in w1.subs && w1.subs[s].rep == rep;
    hide Wf, Begun, AfterReject;
    assert Agree(w1, w1);
    assert Dangles(w, w1, task, s);
  }

  lemma Accounted(
    w: World, w1: World, w2: World, w3: World, task: Task, s: Subtask, rep: nat, fl: Flags, call: HostCall)
    requires Wf(w) && task in w.tasks && Fresh(w, s, rep) && w1.live == Begun(w, s, rep).live
    requires fl.mayLeave && !call.end.ArgumentsFail?
    requires |w2.live| == |w1.live| + Losses(ExportRuns(fl, call.callbacks).trace)
    requires Ended(w, w2, w3, task, OutcomeOf(call))
    ensures Left(w, w3, task, OutcomeOf(call), Losses(HostRun(fl, call).trace))
  {
    BegunLive(w, s, rep);
    HostLosses(fl, call);
    NeverDenied(call);
    hide Wf, Begun, AfterReject, OutcomeOf, Losses, HostRun, Agree, Dangles;
  }

  lemma NeverDenied(call: HostCall)
    ensures !OutcomeOf(call).Denied?
  {
  }

  /** The host task resolves: its caller's subtask is returned with the value, and forgotten. */
  method HandOver(s: Subtask, host: Task, v: JsValue, handles: RepTables.RepTable<Subtask>,
                  ghost f: Forest, ghost w: World, ghost rep: nat) returns (got: Option<JsValue>)
    requires Good(f) && s in f.subs && host in f.tasks && handles == f.handles && !s.isAsync
    requires Running(w, s, rep, host, Snap(f))
    modifies f.tasks, f.subs, f.handles
    ensures Good(f) && got == Some(v)
    ensures Agree(w, Snap(f)) && |Snap(f).live| == |old(Snap(f)).live| - 1
  {
    hide Good, Snap, Wf, Running, Agree, Handed, AfterTaskResolve, Within;
    ghost var w2 := Snap(f);
    TaskAt(f, host);
    CallReturned(w, s, rep, host, w2, v);
    var _ := host.Resolve([v], handles, f);
    HandedFacts(w, w2, Snap(f), s, v);
    SubAt(f, s);
    if s.state != RETURNED {
      return None;
    }
    got := s.result;
  }

  lemma HandedFacts(w: World, w2: World, w5: World, s: Subtask, v: JsValue)
    requires Handed(w, w2, w5, s, v)
    ensures Agree(w, w5) && |w5.live| == |w2.live| - 1
    ensures s in w5.subs && w5.subs[s].state == RETURNED && w5.subs[s].result == Some(v)
  {
  }

  /** The end of a trampoline. */
  method Leave(s: Subtask, host: Task, call: HostCall, fl: Flags, handles: RepTables.RepTable<Subtask>,
               ghost f: Forest, ghost w: World, ghost rep: nat) returns (o: HostOutcome, fl': Flags)
    requires Good(f) && s in f.subs && host in f.tasks && handles == f.handles && !s.isAsync
    requires Running(w, s, rep, host, Snap(f)) && !call.end.ArgumentsFail?
    modifies f.tasks, f.subs, f.handles
    ensures Good(f) && o == OutcomeOf(call)
    ensures fl' == if call.end.Raises? then Mark(fl, call.end.kind) else fl
    ensures Wf(w) && s.parentTask in w.tasks && Ended(w, old(Snap(f)), Snap(f), s.parentTask, o)
  {
    hide Good, Snap, Wf, Running, Agree, AfterReject, Within, Dangles;
    ghost var w2 := Snap(f);
    TaskAt(f, host);
    RunningFacts(w, s, rep, host, w2);
    Dangling(w, s, rep, host, w2);
    fl' := fl;
    var ret;
    match call.end {
      case Raises(kind, _) =>
        fl' := Mark(fl, kind);
        if call.handling == PassOn {
          CallRejected(w, s, rep, host, w2);
          var _ := host.Reject(Nothing, handles, f);
          return Rejected(kind), fl';
        }
        if !kind.WithPayload? {
          return Escaped(kind), fl';
        }
        ret := ErrResult(kind.payload);
      case Gives(value, _) =>
        ret := value;
    }
    if call.end.conversion.Some? {
      return Escaped(call.end.conversion.value), fl';
    }
    var got := HandOver(s, host, ret, handles, f, w, rep);
    if call.end.Raises? && got.Some? && got.value.ErrResult? {
      o := Caught(got.value.payload);
    } else {
      o := Returned(if got.Some? then got.value else Nothing);
    }
  }

  /** The calls made by a guest, in order, up to the first that unwinds it. */
  method GuestCalls(e: Task, cs: seq<HostCall>, fl: Flags, handles: RepTables.RepTable<Subtask>, ghost f: Forest)
    returns (ended: Option<HostOutcome>, fl': Flags, ghost f': Forest)
    requires Good(f) && e in f.tasks && handles == f.handles
    modifies f.tasks, f.subs, f.handles
    ensures Grows(f, f') && fresh(f'.tasks - f.tasks) && fresh(f'.subs - f.subs) && Good(f')
    ensures ended == GuestRun(fl, cs).result && fl' == GuestRun(fl, cs).flags
    ensures Wf(old(Snap(f))) && e in old(Snap(f)).tasks
    ensures Left(old(Snap(f)), Snap(f'), e, LastOutcome(ended), Losses(GuestRun(fl, cs).trace))
    decreases cs, 0
  {
    hide Good, Snap, Wf, Left, AfterReject, HostRun, Losses;
    ghost var w := Snap(f);
    TaskAt(f, e);
    if cs == [] {
      LeftNothing(w, e, Returned(Nothing));
      NoLosses();
      return None, fl, f;
    }
    var o;
    o, fl', f' := LowerImport(e, cs[0], fl, handles, f);
    if Thrown(o).Some? {
      return Some(o), fl', f';
    }
    ghost var w1, fl1 := Snap(f'), fl';
    TaskAt(f', e);
    ended, fl', f' := GuestCalls(e, cs[1..], fl', handles, f');
    LossesAppend(HostRun(fl, cs[0]).trace, GuestRun(fl1, cs[1..]).trace);
    LeftAlso(w, w1, Snap(f'), e, o, LastOutcome(ended),
             Losses(HostRun(fl, cs[0]).trace), Losses(GuestRun(fl1, cs[1..]).trace));
  }

  /** The outcome of the last call of a guest, as far as it matters: all returned, or one unwound it. */
  function LastOutcome(ended: Option<HostOutcome>): HostOutcome {
    if ended.Some? then ended.value else Returned(Nothing)
  }

  lemma NoLosses()
    ensures Losses([]) == 0
  {
  }

  /** The guest gave a result, with which its task was resolved. */
  predicate GaveResult(r: Result<Answer, Failure>) {
    r.Ok? || r == Err(PostReturnError)
  }

  /** `root` is a task of the forest on its own, settled as the result of its export says. */
  ghost predicate SettledRoot(root: Task, f: Forest, r: Result<Answer, Failure>)
    reads f.tasks
  {
    root in f.tasks && root.parentSubtask == null && root.state == RESOLVED && root.rejected == !GaveResult(r)
  }

  /**
   A host function calls an export: a trapped component refuses; otherwise a new root task
   runs the guest and settles, resolved if there is a result and rejected if not.  Nothing
   that was there before changes.
   */
  method CallBack(g: Guest, fl: Flags, handles: RepTables.RepTable<Subtask>, ghost f: Forest)
    returns (fl': Flags, ghost f': Forest, ghost root: Task?)
    requires Good(f) && handles == f.handles
    modifies f.tasks, f.subs, f.handles
    ensures Grows(f, f') && fresh(f'.tasks - f.tasks) && fresh(f'.subs - f.subs) && Good(f')
    ensures fl' == ExportRun(fl, g).flags
    ensures Agree(old(Snap(f)), Snap(f')) && |Snap(f').live| == |old(Snap(f)).live| + Losses(ExportRun(fl, g).trace)
    ensures root == null <==> fl.trapped
    ensures root != null ==> fresh(root) && SettledRoot(root, f', ExportRun(fl, g).result)
    decreases g, 0
  {
    hide Good, Snap, Wf, Left, AfterReject, Agree, SetTask, GuestRun, Losses, Open;
    ghost var w := Snap(f);
    NoLosses();
    if fl.trapped {
      AgreeSelf(w);
      return fl, f, null;
    }
    var e;
    e, f' := StartCallBack(handles, f);
    root := e;
    ghost var w1 := Snap(f');
    if g.lowering.Some? {
      StartedAgrees(w, e, w1);
      Settle(e, false, handles, f', w);
      return fl, f', root;
    }
    var ended;
    ended, fl', f' := GuestCalls(e, g.calls, fl, handles, f');
    RootEnded(w, w1, Snap(f'), e, LastOutcome(ended), Losses(GuestRun(fl, g.calls).trace));
    var thrown := GuestError(ended, g.end);
    QuietEvents(GuestRun(fl, g.calls).trace);
    RejectionUnwinds(ended, g.end);
    if thrown.Some? {
      fl' := Mark(fl', thrown.value);
      Settle(e, false, handles, f', w);
    } else if g.end.Throws? || g.end.area == OtherTag {
      Settle(e, false, handles, f', w);
    } else {
      Settle(e, true, handles, f', w);
      fl' := fl'.(mayLeave := g.end.postReturn == None);
    }
  }

  /** A guest one of whose calls was rejected does not get to return. */
  lemma RejectionUnwinds(ended: Option<HostOutcome>, end: GuestEnd)
    ensures LastOutcome(ended).Rejected? ==> GuestError(ended, end).Some?
  {
  }

  lemma AgreeSelf(w: World)
    ensures Agree(w, w)
  {
  }

  /** Marks and post-return functions lose no handle. */
  lemma QuietEvents(trace: seq<Programs.Event>)
    ensures forall kind :: Losses(trace + [Marked(kind)]) == Losses(trace)
    ensures forall ok :: Losses(trace + [PostReturned(ok)]) == Losses(trace)
  {
    forall kind ensures Losses(trace + [Marked(kind)]) == Losses(trace) { LossesAppend(trace, [Marked(kind)]); }
    forall ok ensures Losses(trace + [PostReturned(ok)]) == Losses(trace) { LossesAppend(trace, [PostReturned(ok)]); }
  }

  method StartCallBack(handles: RepTables.RepTable<Subtask>, ghost f: Forest) returns (e: Task, ghost f': Forest)
    requires Good(f) && handles == f.handles
    ensures fresh(e) && f' == f.(tasks := f.tasks + {e}) && Good(f') && e in f'.tasks
    ensures RootStarted(Snap(f), e, Snap(f'))
  {
    hide Good, Snap, Wf, SetTask;
    IsWf(f);
    e := new Task(null, 0, 0);
    f' := f.(tasks := f.tasks + {e});
    AddTask(f, e);
    IsWf(f');
  }

  ghost predicate RootStarted(w: World, e: Task, w1: World) {
    Wf(w) && Wf(w1) && e !in w.tasks && e.parentSubtask == null && w1 == SetTask(w, e, NewTaskRec(0))
  }

  lemma StartedAgrees(w: World, e: Task, w1: World)
    requires RootStarted(w, e, w1)
    ensures Agree(w, w1) && e !in w.tasks && e.parentSubtask == null && w1.live == w.live
    ensures e in w1.tasks && Open(w1.tasks[e], false)
  {
  }

  lemma RootEnded(w: World, w1: World, w2: World, e: Task, o: HostOutcome, n: nat)
    requires RootStarted(w, e, w1) && e in w1.tasks && Left(w1, w2, e, o, n)
    ensures Agree(w, w2) && |w2.live| == |w.live| + n && e !in w.tasks && e.parentSubtask == null
    ensures e in w2.tasks && Open(w2.tasks[e], o.Rejected?)
  {
    RootMeanwhile(w, w2, e, o, n);
    hide Left, Wf;
    RootLeaves(w, w2, e, o, n);
  }

  /** A root task that its calls left unsettled, or that one of them rejected. */
  predicate Open(r: TaskRec, rejected: bool) {
    r.rejected == rejected && r.state == if rejected then RESOLVED else INITIAL
  }

  lemma RootMeanwhile(w: World, w2: World, e: Task, o: HostOutcome, n: nat)
    requires Wf(w) && Wf(SetTask(w, e, NewTaskRec(0))) && e !in w.tasks && e.parentSubtask == null
    requires Left(SetTask(w, e, NewTaskRec(0)), w2, e, o, n)
    ensures e in w2.tasks && Open(w2.tasks[e], o.Rejected?)
  {
    var w1 := SetTask(w, e, NewTaskRec(0));
    match o
    case Rejected(_) =>
      RootRejects(w, w1, e);
      AgreeAt(AfterReject(w1, e), w2, e);
    case Escaped(_) =>
      var s :| s in w2.subs && Dangles(w1, w2, e, s);
      BegunIs(w1, s, w2.subs[s].rep);
      AgreeAt(Begun(w1, s, w2.subs[s].rep), w2, e);
    case _ => AgreeAt(w1, w2, e);
  }

  lemma AgreeAt(w: World, w2: World, e: Task)
    requires Agree(w, w2) && e in w.tasks
    ensures e in w2.tasks && w2.tasks[e] == w.tasks[e]
  {
  }

  /** The export task settles: resolved after a result, rejected otherwise, unless a host call rejected it already. */
  method Settle(e: Task, ok: bool, handles: RepTables.RepTable<Subtask>, ghost f: Forest, ghost w: World)
    requires Good(f) && e in f.tasks && handles == f.handles
    requires Agree(w, Snap(f)) && e !in w.tasks && e.parentSubtask == null
    requires e in Snap(f).tasks && (Open(Snap(f).tasks[e], false) || (!ok && Open(Snap(f).tasks[e], true)))
    modifies f.tasks, f.subs, f.handles
    ensures Good(f) && Agree(w, Snap(f)) && Snap(f).live == old(Snap(f)).live
    ensures e.state == RESOLVED && e.rejected == !ok
  {
    hide Good, Snap, Wf, AfterReject, AfterTaskResolve, Agree;
    TaskAt(f, e);
    if ok {
      RootResolves(w, Snap(f), e, Nothing);
      var _ := e.Resolve([Nothing], handles, f);
    } else {
      RootRejects(w, Snap(f), e);
      var _ := e.Reject(Nothing, handles, f);
    }
    TaskAt(f, e);
  }

  /** The exports that a host function calls before it ends, one after the other; each settles a task of its own. */
  method CallBacks(gs: seq<Guest>, fl: Flags, handles: RepTables.RepTable<Subtask>, ghost f: Forest)
    returns (fl': Flags, ghost f': Forest, ghost roots: seq<Task?>)
    requires Good(f) && handles == f.handles
    modifies f.tasks, f.subs, f.handles
    ensures Grows(f, f') && fresh(f'.tasks - f.tasks) && fresh(f'.subs - f.subs) && Good(f')
    ensures fl' == ExportRuns(fl, gs).flags
    ensures Agree(old(Snap(f)), Snap(f')) && |Snap(f').live| == |old(Snap(f)).live| + Losses(ExportRuns(fl, gs).trace)
    ensures AllSettled(roots, f', f.tasks, ExportRuns(fl, gs).result)
    decreases gs, 0
  {
    hide Good, Snap, Wf, Agree, ExportRun, ExportRuns, Losses, AllSettled;
    ghost var w := Snap(f);
    ExportsUnfold(fl, gs);
    if gs == [] {
      NoRoots(f);
      AgreeSelf(w);
      NoLosses();
      return fl, f, [];
    }
    ghost var root, rest;
    fl', f', root := CallBack(gs[0], fl, handles, f);
    ghost var w1, f1, fl1 := Snap(f'), f', fl';
    ghost var before := if root == null then NewTaskRec(0) else root.Rec();
    if root != null { TaskAt(f1, root); }
    fl', f', rest := CallBacks(gs[1..], fl', handles, f');
    AgreeTrans(w, w1, Snap(f'));
    LossesAppend(ExportRun(fl, gs[0]).trace, ExportRuns(fl1, gs[1..]).trace);
    if root != null {
      AgreeAt(w1, Snap(f'), root);
      TaskAt(f', root);
      assert root.Rec() == before;
    }
    TrappedResult(fl, gs[0]);
    RootsPrepend(root, rest, f', f.tasks, f1.tasks, ExportRun(fl, gs[0]).result, ExportRuns(fl1, gs[1..]).result);
    roots := [root] + rest;
  }

  /** A call was refused and has no task, or its task is settled. */
  ghost predicate RootOf(root: Task?, f: Forest, r: Result<Answer, Failure>)
    reads f.tasks
  {
    if root == null then r == Err(ComponentTrapped) else r != Err(ComponentTrapped) && SettledRoot(root, f, r)
  }

  /** Each call that was not refused has a settled task of its own, which was not there in `before`. */
  ghost predicate AllSettled(roots: seq<Task?>, f: Forest, before: set<Task>, results: seq<Result<Answer, Failure>>)
    reads f.tasks
  {
    && |roots| == |results|
    && (forall i :: 0 <= i < |roots| ==> RootOf(roots[i], f, results[i]))
    && (forall i :: 0 <= i < |roots| && roots[i] != null ==> roots[i] !in before)
    && (forall i, j :: 0 <= i < j < |roots| && roots[i] != null ==> roots[i] != roots[j])
  }

  lemma NoRoots(f: Forest)
    ensures AllSettled([], f, f.tasks, [])
  {
  }

  lemma RootsPrepend(root: Task?, rest: seq<Task?>, f: Forest, before: set<Task>, between: set<Task>,
                     r: Result<Answer, Failure>, results: seq<Result<Answer, Failure>>)
    requires RootOf(root, f, r) && AllSettled(rest, f, between, results) && before <= between
    requires root != null ==> root !in before && root in between
    ensures AllSettled([root] + rest, f, before, [r] + results)
  {
    hide RootOf;
    var all := [root] + rest;
    assert forall i :: 1 <= i < |all| ==> all[i] == rest[i - 1];
  }

  lemma ExportsUnfold(fl: Flags, gs: seq<Guest>)
    ensures gs == [] ==> ExportRuns(fl, gs) == Course(fl, [], [])
    ensures gs != [] ==>
              var first := ExportRun(fl, gs[0]);
              var n := ExportRuns(first.flags, gs[1..]);
              ExportRuns(fl, gs) == Course(n.flags, first.trace + n.trace, [first.result] + n.result)
  {
    hide ExportRun;
  }

  lemma TrappedResult(fl: Flags, g: Guest)
    ensures ExportRun(fl, g).result == Err(ComponentTrapped) <==> fl.trapped
  {
  }

  // ----- what a caller can tell -------------------------------------------------------------------

  /** It leaves the list of `t` itself alone. */
  lemma RejectKeepsList(w: World, t: Task)
    requires Wf(w) && t in w.tasks
    ensures AfterReject(w, t).tasks[t].subtasks == w.tasks[t].subtasks
    ensures Settled(AfterReject(w, t).tasks[t])
  {
    if PassesOn(w, t) {
      RejectUnfold(w, t);
      assert t.parentSubtask.parentTask.depth < t.depth;
      RejectUpwards(RejectStep(w, t), t.parentSubtask.parentTask, t);
      hide AfterReject;
    }
  }

  /** A call under way is one entry more in its caller's list. */
  lemma PendingList(w: World, w': World, caller: Task)
    requires Wf(w) && caller in w.tasks && Pending(w, w', caller)
    ensures caller in w'.tasks && |w'.tasks[caller].subtasks| == |w.tasks[caller].subtasks| + 1
    ensures Settled(w'.tasks[caller]) == Settled(w.tasks[caller])
    ensures w.live.Keys <= w'.live.Keys && forall k :: k in w.live ==> k in w'.live && w'.live[k] == w.live[k]
  {
    var s :| s in w'.subs && Dangles(w, w', caller, s);
    var b := Begun(w, s, w'.subs[s].rep);
    BegunIs(w, s, w'.subs[s].rep);
    hide Wf;
    assert caller in b.tasks;
    forall k | k in w.live ensures k in w'.live && w'.live[k] == w.live[k] {
      assert k in b.live;
    }
  }

  /**
   After a call the caller's list is what it was exactly unless the call escaped; the
   table of handles is what it was exactly when no host call under it, nor itself, was
   rejected or escaped; and the caller is settled by it exactly when the trampoline rejects.
   */
  lemma CallerSees(w: World, w': World, caller: Task, o: HostOutcome, n: nat)
    requires Wf(w) && caller in w.tasks && Left(w, w', caller, o, n)
    ensures caller in w'.tasks
    ensures w'.tasks[caller].subtasks == w.tasks[caller].subtasks <==> !o.Escaped?
    ensures w'.live == w.live <==> n == 0
    ensures Settled(w'.tasks[caller]) <==> Settled(w.tasks[caller]) || o.Rejected?
  {
    match o {
      case Rejected(_) => RejectKeepsList(w, caller);
      case Escaped(_) => PendingList(w, w', caller);
      case _ =>
    }
    hide Wf, AfterReject, Pending;
    assert caller in w'.tasks;
    assert w.live.Keys <= w'.live.Keys && |w.live.Keys| == |w.live| && |w'.live.Keys| == |w'.live|;
    if n == 0 {
      SameKeys(w.live.Keys, w'.live.Keys);
    }
  }

  lemma {:induction false} SameKeys(a: set<nat>, b: set<nat>)
    requires a <= b && |a| == |b|
    ensures a == b
  {
    if a != {} {
      var x :| x in a;
      SameKeys(a - {x}, b - {x});
    }
  }
}
