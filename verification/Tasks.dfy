/**
 Tasks and subtasks (`AsyncTask`, `AsyncSubtask`).

 A task may run on behalf of a subtask of another task, which makes the tasks of a
 component a forest.  Completion, cancellation and rejection arrive in any order.

 `World` is a snapshot of all the objects' fields; what each operation does to it is
 a function, and the theorems are about these functions and their runs.  The classes
 at the end carry the fields and perform the updates; their contracts tie the
 snapshot after a call to the snapshot before it.
 */
module Tasks {
  import opened Wrappers
  import RepTables

  datatype TaskState = INITIAL | CANCEL_PENDING | CANCEL_DELIVERED | RESOLVED

  datatype SubtaskState = STARTING | STARTED | RETURNED | CANCELLED_BEFORE_STARTED | CANCELLED_BEFORE_RETURNED

  /** The errors thrown by the state machine itself. */
  datatype StateError =
    | AlreadyResolved
    | NotStarted
    | ResultAlreadySet
    | NoCurrentSubtask
    | CompletedSubtask
    | InvalidTaskState
    | CancellationRepeated
    | ChildAlreadySet
    | ParentAsChild
    | UnexpectedResults

  predicate Terminal(s: SubtaskState) {
    s != STARTING && s != STARTED
  }

  predicate Arrow(a: SubtaskState, b: SubtaskState) {
    match a
    case STARTING => b == STARTED || b == CANCELLED_BEFORE_STARTED
    case STARTED => b == RETURNED || b == CANCELLED_BEFORE_RETURNED
    case _ => false
  }

  /** A path of the subtask state machine: only its last state can be terminal. */
  predicate Legal(h: seq<SubtaskState>) {
    h != [] && h[0] == STARTING && forall i :: 0 <= i < |h| - 1 ==> Arrow(h[i], h[i + 1])
  }

  predicate NoDuplicates<T(==)>(s: seq<T>) {
    forall i, j :: 0 <= i < j < |s| ==> s[i] != s[j]
  }

  /** `list.filter(x => x !== y)`. */
  function Without<T(==)>(s: seq<T>, y: T): (r: seq<T>)
    ensures forall x | x in r :: x in s && x != y
    ensures forall x | x in s :: x != y ==> x in r
    ensures NoDuplicates(s) ==> NoDuplicates(r)
    ensures y !in s ==> r == s
  {
    if s == [] then []
    else
      var rest := Without(s[1..], y);
      assert s == [s[0]] + s[1..];
      assert NoDuplicates(s) ==> s[0] !in rest;
      if s[0] == y then rest else [s[0]] + rest
  }

  // ----- snapshots -------------------------------------------------------------------

  /** `fired` lists the on-resolve handlers that have run. */
  datatype TaskRec = TaskRec(
    state: TaskState, rejected: bool, cancelRequested: bool, cancelled: bool,
    onResolveHandlers: seq<nat>, subtasks: seq<Subtask>, fired: seq<nat>)

  /** `delivered` is `lenders === null`; `history` lists the states so far. */
  datatype SubRec = SubRec(
    rep: nat, childTask: Task?, state: SubtaskState, cancelRequested: bool, resolved: bool, result: Option<JsValue>,
    delivered: bool, dropped: bool, history: seq<SubtaskState>)

  /** `live` is the component's table of waitable handles. */
  datatype World = World(tasks: map<Task, TaskRec>, subs: map<Subtask, SubRec>, live: map<nat, Subtask>)

  /** The parent links form a forest, with `depth` the distance from a root. */
  ghost predicate Shaped(w: World) {
    && (forall s :: s in w.subs ==> s.parentTask in w.tasks)
    && (forall t :: t in w.tasks && t.parentSubtask != null ==>
          && t.parentSubtask in w.subs && t.parentSubtask.parentTask in w.tasks
          && t.parentSubtask.parentTask.depth < t.depth)
  }

  ghost predicate TaskSound(w: World, t: Task)
    requires t in w.tasks
  {
    var r := w.tasks[t];
    && (t.parentSubtask != null ==> t.parentSubtask in w.subs && w.subs[t.parentSubtask].state != STARTING)
    && NoDuplicates(r.subtasks)
    && (forall s :: s in r.subtasks ==> s in w.subs && s.parentTask == t && !w.subs[s].resolved)
    && (r.rejected ==> r.state == CANCEL_DELIVERED || r.state == RESOLVED)
    && ((r.state == CANCEL_PENDING || r.state == CANCEL_DELIVERED) && !r.rejected ==>
          t.parentSubtask != null && t.parentSubtask in w.subs && w.subs[t.parentSubtask].cancelRequested)
    && NoDuplicates(r.fired + r.onResolveHandlers)
  }

  ghost predicate SubSound(w: World, s: Subtask)
    requires s in w.subs && s.parentTask in w.tasks
  {
    var r := w.subs[s];
    && Legal(r.history) && r.state == r.history[|r.history| - 1]
    && (r.childTask != null ==> r.childTask in w.tasks && r.childTask.parentSubtask == s)
    && (r.resolved <==> Terminal(r.state))
    && (!r.resolved ==> s in w.tasks[s.parentTask].subtasks && r.result == None && !r.delivered && !r.dropped)
    && (!r.resolved ==> r.rep in w.live && w.live[r.rep] == s)
    && (r.state == RETURNED ==> r.result.Some?)
  }

  /** What every sequence of operations keeps. */
  ghost predicate Wf(w: World) {
    && Shaped(w)
    && (forall t {:trigger TaskSound(w, t)} :: t in w.tasks ==> TaskSound(w, t))
    && (forall s {:trigger SubSound(w, s)} :: s in w.subs ==> SubSound(w, s))
  }

  predicate HalfRejected(r: TaskRec) {
    r.rejected && r.state != RESOLVED
  }

  /** Between operations no rejection is half done. */
  ghost predicate Quiet(w: World) {
    forall t :: t in w.tasks ==> !HalfRejected(w.tasks[t])
  }

  predicate Settled(r: TaskRec) {
    r.state == RESOLVED || r.rejected
  }

  // ----- subtask operations ------------------------------------------------------------

  /** The state a resolution with `v` leads to, if the runtime accepts it. */
  function ResolvedState(r: SubRec, v: JsValue): Option<SubtaskState> {
    if v == Nothing && r.cancelRequested then
      (match r.state
       case STARTING => Some(CANCELLED_BEFORE_STARTED)
       case STARTED => Some(CANCELLED_BEFORE_RETURNED)
       case _ => None)
    else if r.state == STARTED then Some(RETURNED)
    else None
  }

  ghost function Unlist(w: World, s: Subtask): World
    requires s.parentTask in w.tasks
  {
    var p := w.tasks[s.parentTask];
    w.(tasks := w.tasks[s.parentTask := WithoutSub(p, s)])
  }

  /** The subtask `s` gets the record `r` and leaves its parent's list. */
  ghost function Retire(w: World, s: Subtask, r: SubRec): World
    requires s.parentTask in w.tasks
  {
    Unlist(w.(subs := w.subs[s := r]), s)
  }

  function ResolvedRec(r: SubRec, v: JsValue): SubRec
    requires ResolvedState(r, v).Some?
  {
    var next := ResolvedState(r, v).value;
    r.(state := next, history := r.history + [next], result := Some(v), resolved := true)
  }

  /** The caller of a synchronous subtask has received its resolution. */
  function DroppedRec(r: SubRec): SubRec {
    r.(delivered := true, dropped := r.rep != 0)
  }

  /** `AsyncSubtask#onResolve` on an unresolved subtask. */
  ghost function AfterResolve(w: World, s: Subtask, v: JsValue): World
    requires s in w.subs && s.parentTask in w.tasks && ResolvedState(w.subs[s], v).Some?
  {
    var r := ResolvedRec(w.subs[s], v);
    if s.isAsync then Retire(w, s, r)
    else
      var w' := Retire(w, s, DroppedRec(r));
      w'.(live := w'.live - {r.rep})
  }

  function RejectedState(s: SubtaskState): SubtaskState {
    if s == STARTING then CANCELLED_BEFORE_STARTED else CANCELLED_BEFORE_RETURNED
  }

  function RejectedSubRec(r: SubRec): SubRec {
    var next := RejectedState(r.state);
    r.(state := next, history := r.history + [next], resolved := true)
  }

  // ----- rejection ------------------------------------------------------------------------

  function RejectedRec(r: TaskRec): TaskRec {
    r.(state := CANCEL_DELIVERED, rejected := true, cancelRequested := true, cancelled := true,
    fired := r.fired + r.onResolveHandlers, onResolveHandlers := [])
  }

  ghost function SetTask(w: World, t: Task, r: TaskRec): World {
    w.(tasks := w.tasks[t := r])
  }

  /** `AsyncTask#reject`: the task, then its subtask, then the subtask's task, to the root. */
  ghost function AfterReject(w: World, t: Task): (w': World)
    requires Shaped(w) && t in w.tasks
    ensures w'.tasks.Keys == w.tasks.Keys && w'.subs.Keys == w.subs.Keys && w'.live == w.live
    decreases t.depth, 1
  {
    if Settled(w.tasks[t]) then w
    else
      var w1 := SetTask(w, t, RejectedRec(w.tasks[t]));
      var w2 := if t.parentSubtask == null then w1 else AfterRejectSub(w1, t.parentSubtask);
      SetTask(w2, t, w2.tasks[t].(state := RESOLVED))
  }

  /** `AsyncSubtask#reject`. */
  ghost function AfterRejectSub(w: World, s: Subtask): (w': World)
    requires Shaped(w) && s in w.subs
    ensures w'.tasks.Keys == w.tasks.Keys && w'.subs.Keys == w.subs.Keys && w'.live == w.live
    decreases s.parentTask.depth, 2
  {
    var r := w.subs[s];
    if r.resolved then w
    else
      AfterReject(Retire(w, s, RejectedSubRec(r)), s.parentTask)
  }

  // ----- what the operations preserve ---------------------------------------------------

  lemma TaskUpdateWf(w: World, t: Task, r: TaskRec)
    requires Wf(w) && t in w.tasks && r.subtasks == w.tasks[t].subtasks
    requires TaskSound(SetTask(w, t, r), t)
    ensures Wf(SetTask(w, t, r))
  {
    var w' := SetTask(w, t, r);
    forall u | u in w'.tasks ensures TaskSound(w', u) {
      assert TaskSound(w, u);
    }
    forall s | s in w'.subs ensures SubSound(w', s) {
      assert SubSound(w, s);
    }
  }

  ghost predicate Retires(r: SubRec, r': SubRec) {
    && !r.resolved && r'.resolved && Terminal(r'.state)
    && Legal(r'.history) && r'.state == r'.history[|r'.history| - 1]
    && (r'.state == RETURNED ==> r'.result.Some?)
    && r'.childTask == r.childTask && r'.cancelRequested == r.cancelRequested
  }

  lemma RetireTask(w: World, s: Subtask, r: SubRec, u: Task)
    requires Wf(w) && s in w.subs && Retires(w.subs[s], r) && u in w.tasks
    ensures TaskSound(Retire(w, s, r), u)
  {
    hide Legal;
    assert TaskSound(w, u);
  }

  lemma RetireSubtask(w: World, s: Subtask, r: SubRec, x: Subtask)
    requires Wf(w) && s in w.subs && Retires(w.subs[s], r) && x in w.subs
    ensures SubSound(Retire(w, s, r), x)
  {
    hide Legal, TaskSound;
    assert SubSound(w, x);
  }

  /** An unresolved subtask becomes resolved and leaves its parent's list. */
  lemma RetireWf(w: World, s: Subtask, r: SubRec)
    requires Wf(w) && s in w.subs && Retires(w.subs[s], r)
    ensures Wf(Retire(w, s, r))
  {
    hide TaskSound, SubSound;
    forall u | u in w.tasks ensures TaskSound(Retire(w, s, r), u) {
      RetireTask(w, s, r, u);
    }
    forall x | x in w.subs ensures SubSound(Retire(w, s, r), x) {
      RetireSubtask(w, s, r, x);
    }
  }

  lemma LegalExtend(h: seq<SubtaskState>, next: SubtaskState)
    requires Legal(h) && Arrow(h[|h| - 1], next)
    ensures Legal(h + [next])
  {
  }

  lemma ResolveWf(w: World, s: Subtask, v: JsValue)
    requires Wf(w) && s in w.subs && ResolvedState(w.subs[s], v).Some?
    ensures Wf(AfterResolve(w, s, v)) && !w.subs[s].resolved
    ensures w.subs[s].rep in w.live && w.live[w.subs[s].rep] == s
    ensures w.subs[s].result == None && !w.subs[s].delivered && !w.subs[s].dropped
    ensures s in w.tasks[s.parentTask].subtasks
  {
    assert SubSound(w, s);
    var r := w.subs[s];
    var next := ResolvedState(r, v).value;
    assert Retires(r, ResolvedRec(r, v)) by {
      LegalExtend(r.history, next);
    }
    if s.isAsync {
      RetireWf(w, s, ResolvedRec(r, v));
    } else {
      var r' := DroppedRec(ResolvedRec(r, v));
      RetireWf(w, s, r');
      ReleaseHandleWf(Retire(w, s, r'), s);
    }
  }

  lemma ResolvedIffTerminal(w: World, s: Subtask)
    requires Wf(w) && s in w.subs
    ensures w.subs[s].resolved <==> Terminal(w.subs[s].state)
    ensures !w.subs[s].resolved ==> w.subs[s].result == None
  {
    assert SubSound(w, s);
  }

  /** The end of `onResolve`: the parent forgets `s`; of a synchronous call nothing else remains. */
  ghost function LeftParent(w: World, s: Subtask): World
    requires s in w.subs && s.parentTask in w.tasks
  {
    var p := Unlist(w, s);
    if s.isAsync then p
    else p.(subs := w.subs[s := DroppedRec(w.subs[s])], live := w.live - {w.subs[s].rep})
  }

  ghost function Concluded(w: World, s: Subtask, v: JsValue): World
    requires s in w.subs && ResolvedState(w.subs[s], v).Some?
  {
    w.(subs := w.subs[s := ResolvedRec(w.subs[s], v)])
  }

  lemma ResolveAssembled(w: World, s: Subtask, v: JsValue)
    requires s in w.subs && s.parentTask in w.tasks && ResolvedState(w.subs[s], v).Some?
    ensures AfterResolve(w, s, v) == LeftParent(Concluded(w, s, v), s)
  {
    hide ResolvedState, ResolvedRec;
    var w1 := Concluded(w, s, v);
    assert w1.subs[s := DroppedRec(w1.subs[s])] == w.subs[s := DroppedRec(w1.subs[s])];
    assert w1.subs[s].rep == w.subs[s].rep by { SameRep(w.subs[s], v); }
  }

  lemma SameRep(r: SubRec, v: JsValue)
    requires ResolvedState(r, v).Some?
    ensures ResolvedRec(r, v).rep == r.rep
  {
  }

  lemma ReleaseHandleWf(w: World, s: Subtask)
    requires Wf(w) && s in w.subs && w.subs[s].resolved && w.subs[s].rep in w.live && w.live[w.subs[s].rep] == s
    ensures Wf(w.(live := w.live - {w.subs[s].rep}))
  {
    var w' := w.(live := w.live - {w.subs[s].rep});
    forall u | u in w'.tasks ensures TaskSound(w', u) {
      assert TaskSound(w, u);
    }
    forall x | x in w'.subs ensures SubSound(w', x) {
      assert SubSound(w, x);
    }
  }

  lemma TaskRejectedWf(w: World, t: Task)
    requires Wf(w) && t in w.tasks
    ensures Wf(SetTask(w, t, RejectedRec(w.tasks[t])))
  {
    assert TaskSound(w, t);
    TaskUpdateWf(w, t, RejectedRec(w.tasks[t]));
  }

  lemma SubRejectedWf(w: World, s: Subtask)
    requires Wf(w) && s in w.subs && !w.subs[s].resolved
    ensures Wf(Retire(w, s, RejectedSubRec(w.subs[s])))
  {
    assert SubSound(w, s);
    LegalExtend(w.subs[s].history, RejectedState(w.subs[s].state));
    RetireWf(w, s, RejectedSubRec(w.subs[s]));
  }

  lemma {:induction false} RejectWf(w: World, t: Task)
    requires Wf(w) && t in w.tasks
    ensures Wf(AfterReject(w, t))
    decreases t.depth, 1
  {
    if !Settled(w.tasks[t]) {
      var w1 := SetTask(w, t, RejectedRec(w.tasks[t]));
      TaskRejectedWf(w, t);
      var w2 := w1;
      if t.parentSubtask != null {
        w2 := AfterRejectSub(w1, t.parentSubtask);
        RejectSubWf(w1, t.parentSubtask);
      }
      assert TaskSound(w2, t);
      TaskUpdateWf(w2, t, w2.tasks[t].(state := RESOLVED));
    }
  }

  lemma {:induction false} RejectSubWf(w: World, s: Subtask)
    requires Wf(w) && s in w.subs
    ensures Wf(AfterRejectSub(w, s))
    decreases s.parentTask.depth, 2
  {
    if !w.subs[s].resolved {
      SubRejectedWf(w, s);
      RejectWf(Retire(w, s, RejectedSubRec(w.subs[s])), s.parentTask);
    }
  }

  lemma RejectSubUnfold(w: World, s: Subtask)
    requires Wf(w) && s in w.subs
    ensures s.parentTask in w.tasks && (!w.subs[s].resolved ==> Withdrawable(w, s))
    ensures AfterRejectSub(w, s) == if w.subs[s].resolved then w
                                    else AfterReject(Retire(w, s, RejectedSubRec(w.subs[s])), s.parentTask)
  {
    assert s.parentTask in w.tasks;
    if !w.subs[s].resolved {
      assert SubSound(w, s);
      SubRejectedWf(w, s);
    }
    hide Wf;
  }

  ghost predicate Withdrawable(w: World, s: Subtask)
    requires s in w.subs && s.parentTask in w.tasks
  {
    s in w.tasks[s.parentTask].subtasks && !Terminal(w.subs[s].state) && Wf(Retire(w, s, RejectedSubRec(w.subs[s])))
  }

  // ----- the extent of a rejection --------------------------------------------------------

  /** The tasks a rejection of `t` settles: up to the first already settled, or to the root. */
  ghost function ChainTasks(w: World, t: Task): set<Task>
    requires Shaped(w) && t in w.tasks
    decreases t.depth
  {
    if Settled(w.tasks[t]) then {}
    else if t.parentSubtask == null || w.subs[t.parentSubtask].resolved then {t}
    else {t} + ChainTasks(w, t.parentSubtask.parentTask)
  }

  /** The subtasks through which it passes. */
  ghost function ChainSubs(w: World, t: Task): set<Subtask>
    requires Shaped(w) && t in w.tasks
    decreases t.depth
  {
    if Settled(w.tasks[t]) || t.parentSubtask == null || w.subs[t.parentSubtask].resolved then {}
    else {t.parentSubtask} + ChainSubs(w, t.parentSubtask.parentTask)
  }

  lemma {:induction false} ChainBelow(w: World, t: Task)
    requires Shaped(w) && t in w.tasks
    ensures forall u :: u in ChainTasks(w, t) ==> u in w.tasks && u.depth <= t.depth
    ensures forall s :: s in ChainSubs(w, t) ==> s in w.subs && s.parentTask.depth < t.depth
    decreases t.depth
  {
    if !Settled(w.tasks[t]) && t.parentSubtask != null && !w.subs[t.parentSubtask].resolved {
      ChainBelow(w, t.parentSubtask.parentTask);
    }
  }

  /** The chain of `t` depends only on what is at or above `t`. */
  lemma {:induction false} ChainLocal(w: World, w': World, t: Task)
    requires Shaped(w) && Shaped(w') && w'.tasks.Keys == w.tasks.Keys && w'.subs.Keys == w.subs.Keys && t in w.tasks
    requires forall u :: u in w.tasks && u.depth <= t.depth ==> Settled(w'.tasks[u]) == Settled(w.tasks[u])
    requires forall s :: s in w.subs && s.parentTask.depth < t.depth ==> w'.subs[s].resolved == w.subs[s].resolved
    ensures ChainTasks(w', t) == ChainTasks(w, t) && ChainSubs(w', t) == ChainSubs(w, t)
    decreases t.depth
  {
    if t.parentSubtask != null {
      ChainLocal(w, w', t.parentSubtask.parentTask);
    }
  }

  /** What a rejection leaves of a task and of a subtask. */
  ghost predicate TaskAfter(w: World, w': World, u: Task, onChain: bool, gone: set<Subtask>)
    requires u in w.tasks && u in w'.tasks
  {
    var r, r' := w.tasks[u], w'.tasks[u];
    && (forall s :: s in r'.subtasks ==> s in r.subtasks && s !in gone)
    && (forall s :: s in r.subtasks && s !in gone ==> s in r'.subtasks)
    && r'.(subtasks := r.subtasks) == if onChain then RejectedRec(r).(state := RESOLVED) else r
  }

  ghost predicate SubAfter(r: SubRec, r': SubRec, onChain: bool) {
    r' == if onChain then RejectedSubRec(r) else r
  }

  /** The rejection of `t` is passed on to the task of its parent subtask. */
  ghost predicate PassesOn(w: World, t: Task)
    requires Shaped(w) && t in w.tasks
  {
    !Settled(w.tasks[t]) && t.parentSubtask != null && !w.subs[t.parentSubtask].resolved
  }

  ghost function Finish(w: World, t: Task): World
    requires t in w.tasks
  {
    SetTask(w, t, w.tasks[t].(state := RESOLVED))
  }

  /** The part of a rejection below the task above. */
  ghost function RejectStep(w: World, t: Task): (w2: World)
    requires Wf(w) && t in w.tasks && PassesOn(w, t)
    ensures Wf(w2) && w2.tasks.Keys == w.tasks.Keys && w2.subs.Keys == w.subs.Keys
  {
    var s, w1 := t.parentSubtask, SetTask(w, t, RejectedRec(w.tasks[t]));
    TaskRejectedWf(w, t);
    SubRejectedWf(w1, s);
    Retire(w1, s, RejectedSubRec(w.subs[s]))
  }

  lemma RejectUnfold(w: World, t: Task)
    requires Wf(w) && t in w.tasks && PassesOn(w, t)
    ensures AfterReject(w, t) == Finish(AfterReject(RejectStep(w, t), t.parentSubtask.parentTask), t)
  {
    hide Wf, RejectedRec;
  }

  lemma ChainUnfold(w: World, t: Task)
    requires Wf(w) && t in w.tasks && PassesOn(w, t)
    ensures var w2, p := RejectStep(w, t), t.parentSubtask.parentTask;
            && ChainTasks(w, t) == {t} + ChainTasks(w2, p) && ChainSubs(w, t) == {t.parentSubtask} + ChainSubs(w2, p)
  {
    ChainLocal(w, RejectStep(w, t), t.parentSubtask.parentTask);
  }

  /**
   A rejection leaves every task of its chain rejected and resolved, takes the chain's
   subtasks off their parents' lists, and changes no other task.
   */
  lemma {:induction false} RejectExtent(w: World, t: Task)
    requires Wf(w) && t in w.tasks
    ensures forall u :: u in w.tasks ==> TaskAfter(w, AfterReject(w, t), u, u in ChainTasks(w, t), ChainSubs(w, t))
    decreases t.depth
  {
    hide AfterReject, ChainTasks, ChainSubs, TaskAfter, RejectStep;
    if PassesOn(w, t) {
      RejectExtent(RejectStep(w, t), t.parentSubtask.parentTask);
    }
    forall u | u in w.tasks
      ensures TaskAfter(w, AfterReject(w, t), u, u in ChainTasks(w, t), ChainSubs(w, t))
    {
      if PassesOn(w, t) { ExtentTask(w, t, u); } else { StopsTask(w, t, u); }
    }
  }

  /** It cancels the subtasks of the chain, and changes no other subtask. */
  lemma {:induction false} RejectReach(w: World, t: Task)
    requires Wf(w) && t in w.tasks
    ensures forall s :: s in w.subs ==> SubAfter(w.subs[s], AfterReject(w, t).subs[s], s in ChainSubs(w, t))
    decreases t.depth
  {
    hide AfterReject, ChainTasks, ChainSubs, SubAfter, RejectStep;
    if PassesOn(w, t) {
      RejectReach(RejectStep(w, t), t.parentSubtask.parentTask);
    }
    forall x | x in w.subs ensures SubAfter(w.subs[x], AfterReject(w, t).subs[x], x in ChainSubs(w, t)) {
      if PassesOn(w, t) { ExtentSub(w, t, x); } else { StopsSub(w, t, x); }
    }
  }

  lemma StopsTask(w: World, t: Task, u: Task)
    requires Wf(w) && t in w.tasks && !PassesOn(w, t) && u in w.tasks
    ensures TaskAfter(w, AfterReject(w, t), u, u in ChainTasks(w, t), ChainSubs(w, t))
  {
  }

  lemma StopsSub(w: World, t: Task, x: Subtask)
    requires Wf(w) && t in w.tasks && !PassesOn(w, t) && x in w.subs
    ensures SubAfter(w.subs[x], AfterReject(w, t).subs[x], x in ChainSubs(w, t))
  {
  }

  lemma ExtentSub(w: World, t: Task, x: Subtask)
    requires Wf(w) && t in w.tasks && PassesOn(w, t) && x in w.subs
    requires var w2, p := RejectStep(w, t), t.parentSubtask.parentTask;
             SubAfter(w2.subs[x], AfterReject(w2, p).subs[x], x in ChainSubs(w2, p))
    ensures SubAfter(w.subs[x], AfterReject(w, t).subs[x], x in ChainSubs(w, t))
  {
    hide AfterReject, ChainTasks, ChainSubs;
    RejectUnfold(w, t);
    ChainUnfold(w, t);
    ChainBelow(RejectStep(w, t), t.parentSubtask.parentTask);
  }

  /** The step of `RejectExtent` for one task. */
  lemma ExtentTask(w: World, t: Task, u: Task)
    requires Wf(w) && t in w.tasks && PassesOn(w, t) && u in w.tasks
    requires var w2, p := RejectStep(w, t), t.parentSubtask.parentTask;
             TaskAfter(w2, AfterReject(w2, p), u, u in ChainTasks(w2, p), ChainSubs(w2, p))
    ensures TaskAfter(w, AfterReject(w, t), u, u in ChainTasks(w, t), ChainSubs(w, t))
  {
    hide AfterReject, ChainTasks, ChainSubs, RejectStep;
    RejectUnfold(w, t);
    ChainUnfold(w, t);
    ChainBelow(RejectStep(w, t), t.parentSubtask.parentTask);
    ExtentLists(w, t, u);
  }

  function WithoutSub(r: TaskRec, s: Subtask): TaskRec {
    r.(subtasks := Without(r.subtasks, s))
  }

  lemma ExtentLists(w: World, t: Task, u: Task)
    requires Wf(w) && t in w.tasks && PassesOn(w, t) && u in w.tasks
    ensures RejectStep(w, t).tasks[u] == if u == t then RejectedRec(w.tasks[u])
            else WithoutSub(w.tasks[u], t.parentSubtask)
    ensures forall x :: x in w.tasks[u].subtasks ==> x.parentTask == u
  {
    assert TaskSound(w, u);
  }

  lemma RejectQuiet(w: World, t: Task)
    requires Wf(w) && t in w.tasks && Quiet(w)
    ensures Quiet(AfterReject(w, t))
    ensures Settled(AfterReject(w, t).tasks[t])
  {
    RejectExtent(w, t);
    forall u | u in w.tasks ensures !HalfRejected(AfterReject(w, t).tasks[u]) {
      assert TaskAfter(w, AfterReject(w, t), u, u in ChainTasks(w, t), ChainSubs(w, t));
    }
  }

  // ----- task operations --------------------------------------------------------------------

  function FiredRec(r: TaskRec): TaskRec {
    r.(fired := r.fired + r.onResolveHandlers, onResolveHandlers := [])
  }

  /** The rest of `AsyncTask#onResolve`: a parent subtask still pending receives the value. */
  ghost function AfterDelivery(w: World, t: Task, v: JsValue): World
    requires Shaped(w) && t in w.tasks && Deliverable(w, t, v)
  {
    var w1 := SetTask(w, t, FiredRec(w.tasks[t]));
    var s := t.parentSubtask;
    if s == null || Terminal(w.subs[s].state) then w1 else AfterResolve(w1, s, v)
  }

  ghost predicate Deliverable(w: World, t: Task, v: JsValue)
    requires Shaped(w) && t in w.tasks
  {
    var s := t.parentSubtask;
    s != null && !Terminal(w.subs[s].state) ==> ResolvedState(w.subs[s], v).Some?
  }

  /** A task that is done, or acknowledges a cancellation, can always deliver. */
  lemma DeliveryWf(w: World, t: Task, v: JsValue)
    requires Wf(w) && t in w.tasks
    ensures Deliverable(w, t, v) && Wf(AfterDelivery(w, t, v))
  {
    assert TaskSound(w, t);
    TaskUpdateWf(w, t, FiredRec(w.tasks[t]));
    var s := t.parentSubtask;
    if s != null && !Terminal(w.subs[s].state) {
      ResolveWf(SetTask(w, t, FiredRec(w.tasks[t])), s, v);
    }
  }

  lemma FiredWf(w: World, t: Task)
    requires Wf(w) && t in w.tasks
    ensures Wf(SetTask(w, t, FiredRec(w.tasks[t])))
  {
    assert TaskSound(w, t);
    TaskUpdateWf(w, t, FiredRec(w.tasks[t]));
  }

  function AskedRec(r: TaskRec): TaskRec {
    if r.state == RESOLVED || r.cancelRequested then r
    else r.(cancelRequested := true, state := if r.state == INITIAL then CANCEL_PENDING else r.state)
  }

  ghost function MarkCancelled(w: World, s: Subtask): World
    requires s in w.subs
  {
    w.(subs := w.subs[s := w.subs[s].(cancelRequested := true)])
  }

  lemma MarkCancelledWf(w: World, s: Subtask)
    requires Wf(w) && s in w.subs
    ensures Wf(MarkCancelled(w, s))
  {
    var w' := MarkCancelled(w, s);
    forall u | u in w'.tasks ensures TaskSound(w', u) {
      assert TaskSound(w, u);
    }
    forall x | x in w'.subs ensures SubSound(w', x) {
      assert SubSound(w, x);
    }
  }

  /**
   `AsyncSubtask#requestCancellation`: a guest callee is asked, a host call counts as
   cancelled at once.
   */
  ghost function AfterRequestCancel(w: World, s: Subtask): (w': World)
    requires Wf(w) && s in w.subs && !w.subs[s].cancelRequested
    ensures Wf(w')
  {
    MarkCancelledWf(w, s);
    var w1 := MarkCancelled(w, s);
    var c := w.subs[s].childTask;
    if w.subs[s].resolved then w1
    else if c != null then
      assert SubSound(w1, s);
      assert Wf(SetTask(w1, c, AskedRec(w1.tasks[c]))) by {
        assert TaskSound(w1, c);
        TaskUpdateWf(w1, c, AskedRec(w1.tasks[c]));
      }
      SetTask(w1, c, AskedRec(w1.tasks[c]))
    else
      assert SubSound(w1, s);
      ResolveWf(w1, s, Nothing);
      AfterResolve(w1, s, Nothing)
  }

  ghost function AfterStart(w: World, s: Subtask): (w': World)
    requires Wf(w) && s in w.subs && w.subs[s].state == STARTING
    ensures Wf(w')
  {
    var r := w.subs[s];
    var w' := w.(subs := w.subs[s := r.(state := STARTED, history := r.history + [STARTED])]);
    assert SubSound(w, s);
    LegalExtend(r.history, STARTED);
    StartWf(w, s);
    w'
  }

  lemma StartWf(w: World, s: Subtask)
    requires Wf(w) && s in w.subs && w.subs[s].state == STARTING
    ensures var r := w.subs[s]; Wf(w.(subs := w.subs[s := r.(state := STARTED, history := r.history + [STARTED])]))
  {
    var r := w.subs[s];
    assert SubSound(w, s);
    LegalExtend(r.history, STARTED);
    var w' := w.(subs := w.subs[s := r.(state := STARTED, history := r.history + [STARTED])]);
    hide Legal, SubSound;
    forall u | u in w'.tasks ensures TaskSound(w', u) {
      assert TaskSound(w, u);
    }
    forall x | x in w'.subs ensures SubSound(w', x) {
      StartSub(w, s, x);
    }
  }

  lemma StartSub(w: World, s: Subtask, x: Subtask)
    requires Wf(w) && s in w.subs && w.subs[s].state == STARTING && x in w.subs
    ensures var r := w.subs[s];
            SubSound(w.(subs := w.subs[s := r.(state := STARTED, history := r.history + [STARTED])]), x)
  {
    assert SubSound(w, x);
    if x == s {
      LegalExtend(w.subs[s].history, STARTED);
    }
    hide Legal, TaskSound;
  }

  function StartedRec(r: SubRec): SubRec {
    r.(state := STARTED, history := r.history + [STARTED])
  }

  lemma StartUnfold(w: World, s: Subtask)
    requires Wf(w) && s in w.subs && w.subs[s].state == STARTING
    ensures AfterStart(w, s) == w.(subs := w.subs[s := StartedRec(w.subs[s])])
    ensures Wf(AfterStart(w, s))
  {
    hide Wf;
  }

  lemma RequestUnfold(w: World, s: Subtask)
    requires Wf(w) && s in w.subs && !w.subs[s].cancelRequested
    ensures var w1, c := MarkCancelled(w, s), w.subs[s].childTask;
            && Wf(w1) && s.parentTask in w.tasks && (c != null ==> c in w.tasks)
            && (!w.subs[s].resolved && c == null ==> ResolvedState(w1.subs[s], Nothing).Some?)
            && AfterRequestCancel(w, s) ==
               if w.subs[s].resolved then w1
               else if c != null then SetTask(w1, c, AskedRec(w.tasks[c]))
               else AfterResolve(w1, s, Nothing)
    ensures Wf(AfterRequestCancel(w, s))
  {
    MarkCancelledWf(w, s);
    assert SubSound(MarkCancelled(w, s), s);
    assert SubSound(w, s);
    hide Wf;
  }

  ghost function AfterDeliverCancel(w: World, t: Task): (w': World)
    requires Wf(w) && t in w.tasks && w.tasks[t].state == CANCEL_PENDING
    ensures Wf(w')
  {
    assert Wf(SetTask(w, t, w.tasks[t].(state := CANCEL_DELIVERED))) by {
      assert TaskSound(w, t);
      TaskUpdateWf(w, t, w.tasks[t].(state := CANCEL_DELIVERED));
    }
    SetTask(w, t, w.tasks[t].(state := CANCEL_DELIVERED))
  }

  // ----- resolution, acknowledged or forced ---------------------------------------------------

  /** `AsyncTask#onResolve`, for a task that is done, cancelled or rejected. */
  ghost function AfterOnResolve(w: World, t: Task, v: JsValue): (w': World)
    requires Wf(w) && t in w.tasks
    ensures Wf(w') && w'.tasks.Keys == w.tasks.Keys
  {
    FiredWf(w, t);
    DeliveryWf(w, t, v);
    var w1 := SetTask(w, t, FiredRec(w.tasks[t]));
    if !w.tasks[t].rejected then AfterDelivery(w, t, v)
    else if t.parentSubtask == null then w1
    else RejectSubWf(w1, t.parentSubtask); AfterRejectSub(w1, t.parentSubtask)
  }

  lemma OnResolveUnfold(w: World, t: Task, v: JsValue)
    requires Wf(w) && t in w.tasks
    ensures var w1, s := SetTask(w, t, FiredRec(w.tasks[t])), t.parentSubtask;
            && Wf(w1) && Deliverable(w1, t, v) && (s != null ==> s in w1.subs && s.parentTask in w1.tasks)
            && AfterOnResolve(w, t, v) ==
               if s == null then w1
               else if w.tasks[t].rejected then AfterRejectSub(w1, s)
               else if Terminal(w.subs[s].state) then w1
               else AfterResolve(w1, s, v)
  {
    FiredWf(w, t);
    DeliveryWf(w, t, v);
  }

  lemma FinishWf(w: World, t: Task)
    requires Wf(w) && t in w.tasks
    ensures Wf(Finish(w, t))
  {
    assert TaskSound(w, t);
    TaskUpdateWf(w, t, w.tasks[t].(state := RESOLVED));
  }

  ghost function Acknowledge(w: World, t: Task): World
    requires t in w.tasks
  {
    SetTask(w, t, w.tasks[t].(cancelled := true))
  }

  lemma CancelledWf(w: World, t: Task)
    requires Wf(w) && t in w.tasks
    ensures Wf(Acknowledge(w, t))
  {
    assert TaskSound(w, t);
    TaskUpdateWf(w, t, w.tasks[t].(cancelled := true));
  }

  /** The value delivered for the results of a call: none is `undefined`. */
  function ResultOf(results: seq<JsValue>): JsValue {
    if results == [] then Undefined else results[0]
  }

  /** `AsyncTask#resolve`. */
  ghost function AfterTaskResolve(w: World, t: Task, v: JsValue): (w': World)
    requires Wf(w) && t in w.tasks
    ensures Wf(w')
  {
    FinishWf(w, t);
    AfterOnResolve(Finish(w, t), t, v)
  }

  lemma ResolveUnfold(w: World, t: Task, v: JsValue)
    requires Wf(w) && t in w.tasks
    ensures Wf(Finish(w, t)) && AfterTaskResolve(w, t, v) == AfterOnResolve(Finish(w, t), t, v)
  {
    hide Wf, AfterOnResolve;
    FinishWf(w, t);
  }

  /** `AsyncTask#cancel`, called by the guest or from `reject`. */
  ghost function AfterCancel(w: World, t: Task, v: JsValue): (w': World)
    requires Wf(w) && t in w.tasks
    ensures Wf(w')
  {
    CancelledWf(w, t);
    var w1 := AfterOnResolve(Acknowledge(w, t), t, v);
    FinishWf(w1, t);
    Finish(w1, t)
  }

  lemma CancelUnfold(w: World, t: Task, v: JsValue)
    requires Wf(w) && t in w.tasks
    ensures Wf(Acknowledge(w, t)) && t in Acknowledge(w, t).tasks
    ensures AfterCancel(w, t, v) == Finish(AfterOnResolve(Acknowledge(w, t), t, v), t)
  {
    hide Wf, AfterOnResolve;
    CancelledWf(w, t);
  }

  /** What `reject` sets before it calls `cancel`. */
  function BeginReject(r: TaskRec): TaskRec {
    r.(state := CANCEL_DELIVERED, rejected := true, cancelRequested := true)
  }

  lemma BeginRejectWf(w: World, t: Task)
    requires Wf(w) && t in w.tasks
    ensures Wf(SetTask(w, t, BeginReject(w.tasks[t])))
  {
    assert TaskSound(w, t);
    TaskUpdateWf(w, t, BeginReject(w.tasks[t]));
  }

  lemma RejectUnfolded(w: World, t: Task, v: JsValue)
    requires Wf(w) && t in w.tasks
    ensures Wf(SetTask(w, t, BeginReject(w.tasks[t])))
    ensures AfterReject(w, t) == if Settled(w.tasks[t]) then w
            else AfterCancel(SetTask(w, t, BeginReject(w.tasks[t])), t, v)
  {
    BeginRejectWf(w, t);
    CancelledWf(SetTask(w, t, BeginReject(w.tasks[t])), t);
    if !Settled(w.tasks[t]) {
      hide Wf, AfterOnResolve, AfterReject, AfterRejectSub, AfterCancel, TaskSound, SubSound;
      RejectedByCancel(w, t, v);
      CancelUnfold(SetTask(w, t, BeginReject(w.tasks[t])), t, v);
      RejectAtOnce(w, t);
    }
  }

  lemma RejectAtOnce(w: World, t: Task)
    requires Wf(w) && t in w.tasks && !Settled(w.tasks[t])
    ensures t.parentSubtask != null ==> t.parentSubtask in w.subs && Wf(Rejecting(w, t))
    ensures AfterReject(w, t) ==
            Finish(if t.parentSubtask == null then Rejecting(w, t)
              else AfterRejectSub(Rejecting(w, t), t.parentSubtask), t)
  {
    TaskRejectedWf(w, t);
    hide Wf;
  }

  ghost function Rejecting(w: World, t: Task): World
    requires t in w.tasks
  {
    SetTask(w, t, RejectedRec(w.tasks[t]))
  }

  lemma RejectedByCancel(w: World, t: Task, v: JsValue)
    requires Wf(w) && t in w.tasks && Wf(SetTask(w, t, BeginReject(w.tasks[t])))
    requires Wf(Acknowledge(SetTask(w, t, BeginReject(w.tasks[t])), t))
    ensures t.parentSubtask != null ==> t.parentSubtask in w.subs && Wf(Rejecting(w, t))
    ensures AfterOnResolve(Acknowledge(SetTask(w, t, BeginReject(w.tasks[t])), t), t, v)
            == if t.parentSubtask == null then Rejecting(w, t) else AfterRejectSub(Rejecting(w, t), t.parentSubtask)
  {
    hide Wf, AfterOnResolve, AfterRejectSub;
    var w1 := Acknowledge(SetTask(w, t, BeginReject(w.tasks[t])), t);
    OnResolveUnfold(w1, t, v);
    assert SetTask(w1, t, FiredRec(w1.tasks[t])) == Rejecting(w, t);
  }

  // ----- creation -----------------------------------------------------------------------------

  function NewSubRec(rep: nat): SubRec {
    SubRec(rep, null, STARTING, false, false, None, false, false, [STARTING])
  }

  function NewTaskRec(handler: nat): TaskRec {
    TaskRec(INITIAL, false, false, false, [handler], [], [])
  }

  /** `createSubtask`: listed last with its parent, and given a handle. */
  ghost function AfterCreateSub(w: World, s: Subtask, rep: nat): (w': World)
    requires Wf(w) && s !in w.subs && s.parentTask in w.tasks && rep !in w.live
    ensures Wf(w')
  {
    CreateSubWf(w, s, rep);
    Enlist(w, s, rep)
  }

  ghost function Enlist(w: World, s: Subtask, rep: nat): World
    requires s.parentTask in w.tasks
  {
    var p := w.tasks[s.parentTask];
    World(w.tasks[s.parentTask := p.(subtasks := p.subtasks + [s])], w.subs[s := NewSubRec(rep)], w.live[rep := s])
  }

  lemma CreateSubWf(w: World, s: Subtask, rep: nat)
    requires Wf(w) && s !in w.subs && s.parentTask in w.tasks && rep !in w.live
    ensures Wf(Enlist(w, s, rep))
  {
    var w' := Enlist(w, s, rep);
    forall u | u in w'.tasks ensures TaskSound(w', u) {
      assert TaskSound(w, u);
    }
    forall x | x in w'.subs ensures SubSound(w', x) {
      assert x != s ==> SubSound(w, x);
    }
  }

  /** A task may be created under a subtask that has started. */
  ghost predicate MayBack(w: World, t: Task) {
    t.parentSubtask != null ==>
      && t.parentSubtask in w.subs && w.subs[t.parentSubtask].state != STARTING
      && t.parentSubtask.parentTask in w.tasks && t.parentSubtask.parentTask.depth < t.depth
  }

  ghost function AfterCreateTask(w: World, t: Task, handler: nat): (w': World)
    requires Wf(w) && t !in w.tasks && MayBack(w, t)
    ensures Wf(w')
  {
    CreateTaskWf(w, t, handler);
    SetTask(w, t, NewTaskRec(handler))
  }

  lemma CreateTaskWf(w: World, t: Task, handler: nat)
    requires Wf(w) && t !in w.tasks && MayBack(w, t)
    ensures Wf(SetTask(w, t, NewTaskRec(handler)))
  {
    var w' := SetTask(w, t, NewTaskRec(handler));
    forall u | u in w'.tasks ensures TaskSound(w', u) {
      assert u != t ==> TaskSound(w, u);
    }
    forall x | x in w'.subs ensures SubSound(w', x) {
      assert SubSound(w, x);
    }
  }

  function RegisteredRec(r: TaskRec, handler: nat): TaskRec {
    r.(onResolveHandlers := r.onResolveHandlers + [handler])
  }

  /** `registerOnResolveHandler`; the number stands for this one registration. */
  ghost function AfterRegister(w: World, t: Task, handler: nat): (w': World)
    requires Wf(w) && t in w.tasks && handler !in w.tasks[t].fired + w.tasks[t].onResolveHandlers
    ensures Wf(w')
  {
    RegisterWf(w, t, handler);
    SetTask(w, t, RegisteredRec(w.tasks[t], handler))
  }

  lemma RegisterWf(w: World, t: Task, handler: nat)
    requires Wf(w) && t in w.tasks && handler !in w.tasks[t].fired + w.tasks[t].onResolveHandlers
    ensures Wf(SetTask(w, t, RegisteredRec(w.tasks[t], handler)))
  {
    var r, r' := w.tasks[t], RegisteredRec(w.tasks[t], handler);
    assert TaskSound(w, t);
    assert r'.fired + r'.onResolveHandlers == (r.fired + r.onResolveHandlers) + [handler];
    TaskUpdateWf(w, t, r');
  }

  /** `setChildTask`: a subtask learns, once, which task backs it. */
  ghost function AfterSetChild(w: World, s: Subtask, t: Task): (w': World)
    requires Wf(w) && s in w.subs && t in w.tasks && t.parentSubtask == s
    ensures Wf(w')
  {
    SetChildWf(w, s, t);
    WithChild(w, s, t)
  }

  ghost function WithChild(w: World, s: Subtask, t: Task): World
    requires s in w.subs
  {
    w.(subs := w.subs[s := w.subs[s].(childTask := t)])
  }

  lemma SetChildWf(w: World, s: Subtask, t: Task)
    requires Wf(w) && s in w.subs && t in w.tasks && t.parentSubtask == s
    ensures Wf(WithChild(w, s, t)) && s.parentTask != t
  {
    var w' := WithChild(w, s, t);
    forall u | u in w'.tasks ensures TaskSound(w', u) {
      assert TaskSound(w, u);
    }
    forall x | x in w'.subs ensures SubSound(w', x) {
      assert SubSound(w, x);
    }
  }

  // ----- runs ---------------------------------------------------------------------------------

  datatype Op =
    | CreateTask(t: Task, handler: nat)
    | CreateSub(s: Subtask, rep: nat)
    | Register(t: Task, handler: nat)
    | SetChild(s: Subtask, t: Task)
    | Start(s: Subtask)
    | ResolveSub(s: Subtask, v: JsValue)
    | RequestCancel(s: Subtask)
    | ResolveTask(t: Task, v: JsValue)
    | ResolveSeveral(t: Task)
    | DeliverCancel(t: Task)
    | CancelTask(t: Task)
    | Reject(t: Task)

  /** The operation can be called and does not throw, except `ResolveSeveral`, which throws half way. */
  ghost predicate Enabled(w: World, op: Op) {
    match op
    case CreateTask(t, _) => t !in w.tasks && MayBack(w, t)
    case CreateSub(s, rep) => s !in w.subs && s.parentTask in w.tasks && rep !in w.live
    case Register(t, handler) => t in w.tasks && handler !in w.tasks[t].fired + w.tasks[t].onResolveHandlers
    case SetChild(s, t) => s in w.subs && w.subs[s].childTask == null && t in w.tasks && t.parentSubtask == s
    case Start(s) => s in w.subs && w.subs[s].state == STARTING
    case ResolveSub(s, v) => s in w.subs && ResolvedState(w.subs[s], v).Some?
    case RequestCancel(s) => s in w.subs && !w.subs[s].cancelRequested
    case ResolveTask(t, _) => t in w.tasks && w.tasks[t].state != RESOLVED && !w.tasks[t].rejected
    case ResolveSeveral(t) => t in w.tasks && w.tasks[t].state != RESOLVED && !w.tasks[t].rejected
    case DeliverCancel(t) => t in w.tasks && w.tasks[t].state == CANCEL_PENDING
    case CancelTask(t) => t in w.tasks && w.tasks[t].state == CANCEL_DELIVERED && !w.tasks[t].rejected
    case Reject(t) => t in w.tasks
  }

  ghost function Step(w: World, op: Op): (w': World)
    requires Wf(w)
    ensures Wf(w')
  {
    if !Enabled(w, op) then w
    else
      match op
      case CreateTask(t, handler) => AfterCreateTask(w, t, handler)
      case CreateSub(s, rep) => AfterCreateSub(w, s, rep)
      case Register(t, handler) => AfterRegister(w, t, handler)
      case SetChild(s, t) => AfterSetChild(w, s, t)
      case Start(s) => AfterStart(w, s)
      case ResolveSub(s, v) => ResolveWf(w, s, v); Shape(w, s); AfterResolve(w, s, v)
      case RequestCancel(s) => AfterRequestCancel(w, s)
      case ResolveTask(t, v) => AfterTaskResolve(w, t, v)
      case ResolveSeveral(t) => FinishWf(w, t); Finish(w, t)
      case DeliverCancel(t) => AfterDeliverCancel(w, t)
      case CancelTask(t) => AfterCancel(w, t, Nothing)
      case Reject(t) => RejectWf(w, t); AfterReject(w, t)
  }

  lemma Shape(w: World, s: Subtask)
    requires Wf(w) && s in w.subs
    ensures s.parentTask in w.tasks
  {
  }

  ghost function Run(w: World, ops: seq<Op>): (w': World)
    requires Wf(w)
    ensures Wf(w')
  {
    if ops == [] then w else Step(Run(w, ops[..|ops| - 1]), ops[|ops| - 1])
  }

  /** A record may only move on: a resolved subtask stays as it is, a result is set and delivered once. */
  predicate SubEvolves(r: SubRec, r': SubRec) {
    && r.history <= r'.history
    && (r.resolved ==> r'.resolved && r'.state == r.state && r'.history == r.history && r'.result == r.result)
    && (r.result.Some? ==> r'.result == r.result) && (r.delivered ==> r'.delivered)
  }

  function Rank(s: TaskState): nat {
    match s
    case INITIAL => 0
    case CANCEL_PENDING => 1
    case CANCEL_DELIVERED => 2
    case RESOLVED => 3
  }

  /**
   Handlers that have run are never forgotten, no registered handler is lost, and the state
   of a task never goes back: a cancellation is requested, delivered and acknowledged at
   most once.
   */
  predicate TaskEvolves(r: TaskRec, r': TaskRec) {
    && r.fired <= r'.fired && r.fired + r.onResolveHandlers <= r'.fired + r'.onResolveHandlers
    && Rank(r.state) <= Rank(r'.state)
  }

  ghost predicate Evolves(w: World, w': World) {
    && (forall s {:trigger s in w'.subs} :: s in w.subs ==> s in w'.subs && SubEvolves(w.subs[s], w'.subs[s]))
    && (forall t {:trigger t in w'.tasks} :: t in w.tasks ==> t in w'.tasks && TaskEvolves(w.tasks[t], w'.tasks[t]))
  }

  lemma RejectEvolves(w: World, t: Task)
    requires Wf(w) && t in w.tasks
    ensures Evolves(w, AfterReject(w, t))
  {
    RejectExtent(w, t);
    var w' := AfterReject(w, t);
    hide AfterReject, ChainTasks, Wf;
    forall s | s in w.subs ensures SubEvolves(w.subs[s], w'.subs[s]) {
      RejectSubEvolves(w, t, s);
    }
    forall u | u in w.tasks ensures TaskEvolves(w.tasks[u], w'.tasks[u]) {
      assert TaskAfter(w, w', u, u in ChainTasks(w, t), ChainSubs(w, t));
      TaskAfterEvolves(w, w', u, u in ChainTasks(w, t), ChainSubs(w, t));
    }
  }

  /** Only unresolved subtasks are on the chain. */
  lemma {:induction false} ChainUnresolved(w: World, t: Task)
    requires Shaped(w) && t in w.tasks
    ensures forall s :: s in ChainSubs(w, t) ==> s in w.subs && !w.subs[s].resolved
    ensures forall u :: u in ChainTasks(w, t) ==> u in w.tasks && !Settled(w.tasks[u])
    decreases t.depth
  {
    if PassesOn(w, t) {
      ChainUnresolved(w, t.parentSubtask.parentTask);
    }
  }

  lemma RejectSubEvolves(w: World, t: Task, s: Subtask)
    requires Wf(w) && t in w.tasks && s in w.subs
    ensures SubEvolves(w.subs[s], AfterReject(w, t).subs[s])
  {
    RejectReach(w, t);
    ChainUnresolved(w, t);
    assert SubSound(w, s);
    hide AfterReject, ChainTasks, ChainSubs;
  }

  lemma TaskAfterEvolves(w: World, w': World, u: Task, onChain: bool, gone: set<Subtask>)
    requires u in w.tasks && u in w'.tasks && TaskAfter(w, w', u, onChain, gone)
    ensures TaskEvolves(w.tasks[u], w'.tasks[u])
  {
    var r, r' := w.tasks[u], w'.tasks[u];
    assert r'.(subtasks := r.subtasks).fired == r'.fired && r'.(subtasks := r.subtasks).state == r'.state;
  }

  lemma SetTaskEvolves(w: World, t: Task, r: TaskRec)
    requires t in w.tasks && TaskEvolves(w.tasks[t], r)
    ensures Evolves(w, SetTask(w, t, r))
    ensures Quiet(w) && !HalfRejected(r) ==> Quiet(SetTask(w, t, r))
  {
  }

  lemma RetireEvolves(w: World, s: Subtask, r: SubRec)
    requires s in w.subs && s.parentTask in w.tasks && SubEvolves(w.subs[s], r)
    ensures Evolves(w, Retire(w, s, r))
    ensures Quiet(w) ==> Quiet(Retire(w, s, r))
  {
  }

  lemma ResolveEvolves(w: World, s: Subtask, v: JsValue)
    requires Wf(w) && s in w.subs && ResolvedState(w.subs[s], v).Some?
    ensures Evolves(w, AfterResolve(w, s, v))
    ensures Quiet(w) ==> Quiet(AfterResolve(w, s, v))
  {
    ResolveWf(w, s, v);
    hide Wf;
    var r := ResolvedRec(w.subs[s], v);
    RetireEvolves(w, s, r);
    RetireEvolves(w, s, DroppedRec(r));
  }

  lemma DeliveryEvolves(w: World, t: Task, v: JsValue)
    requires Wf(w) && t in w.tasks && Deliverable(w, t, v)
    ensures Evolves(w, AfterDelivery(w, t, v))
    ensures Quiet(w) ==> Quiet(AfterDelivery(w, t, v))
  {
    var w1 := SetTask(w, t, FiredRec(w.tasks[t]));
    assert Wf(w1) by {
      assert TaskSound(w, t);
      TaskUpdateWf(w, t, FiredRec(w.tasks[t]));
    }
    hide Evolves, Quiet;
    assert Evolves(w, w1) && (Quiet(w) ==> Quiet(w1)) by {
      SetTaskEvolves(w, t, FiredRec(w.tasks[t]));
      assert Quiet(w) ==> !HalfRejected(w.tasks[t]) by { QuietAt(w, t); }
    }
    var s := t.parentSubtask;
    if s != null && !Terminal(w.subs[s].state) {
      ResolveEvolves(w1, s, v);
      EvolvesTrans(w, w1, AfterResolve(w1, s, v));
    }
  }

  lemma QuietAt(w: World, t: Task)
    requires t in w.tasks
    ensures Quiet(w) ==> !HalfRejected(w.tasks[t])
  {
  }

  lemma EvolvesTrans(w1: World, w2: World, w3: World)
    requires Evolves(w1, w2) && Evolves(w2, w3)
    ensures Evolves(w1, w3)
  {
    forall s | s in w1.subs ensures s in w3.subs && SubEvolves(w1.subs[s], w3.subs[s]) {
      assert s in w2.subs && s in w3.subs;
    }
    forall t | t in w1.tasks ensures t in w3.tasks && TaskEvolves(w1.tasks[t], w3.tasks[t]) {
      assert t in w2.tasks && t in w3.tasks;
    }
  }

  lemma OnResolveEvolves(w: World, t: Task, v: JsValue)
    requires Wf(w) && t in w.tasks && !w.tasks[t].rejected
    ensures Evolves(w, AfterOnResolve(w, t, v))
    ensures Quiet(w) ==> Quiet(AfterOnResolve(w, t, v))
  {
    hide Wf, Evolves, Quiet, AfterDelivery;
    DeliveryWf(w, t, v);
    DeliveryEvolves(w, t, v);
  }

  lemma FinishEvolves(w: World, t: Task)
    requires t in w.tasks
    ensures Evolves(w, Finish(w, t))
    ensures Quiet(w) ==> Quiet(Finish(w, t))
  {
    SetTaskEvolves(w, t, w.tasks[t].(state := RESOLVED));
  }

  lemma TaskResolveEvolves(w: World, t: Task, v: JsValue)
    requires Wf(w) && t in w.tasks && !w.tasks[t].rejected
    ensures Evolves(w, AfterTaskResolve(w, t, v))
    ensures Quiet(w) ==> Quiet(AfterTaskResolve(w, t, v))
  {
    hide Wf, Evolves, Quiet, AfterOnResolve, AfterTaskResolve;
    ResolveUnfold(w, t, v);
    FinishEvolves(w, t);
    OnResolveEvolves(Finish(w, t), t, v);
    EvolvesTrans(w, Finish(w, t), AfterTaskResolve(w, t, v));
  }

  /** The task is done, and a subtask it backs is in a terminal state. */
  ghost predicate CancelSettled(w: World, t: Task) {
    && t in w.tasks && w.tasks[t].state == RESOLVED && w.tasks[t].cancelled
    && (t.parentSubtask != null ==> t.parentSubtask in w.subs && Terminal(w.subs[t.parentSubtask].state))
  }

  lemma CancelSettles(w: World, t: Task, v: JsValue)
    requires Wf(w) && t in w.tasks && !w.tasks[t].rejected
    ensures CancelSettled(AfterCancel(w, t, v), t)
  {
    if t.parentSubtask != null { BackedElsewhere(w, t); }
    hide Wf, AfterOnResolve, AfterCancel, AfterResolve, ResolvedState;
    CancelUnfold(w, t, v);
    var w1, s := Acknowledge(w, t), t.parentSubtask;
    OnResolveUnfold(w1, t, v);
    var w2 := SetTask(w1, t, FiredRec(w1.tasks[t]));
    if s != null && !Terminal(w1.subs[s].state) {
      ResolveEnds(w2, s, v, t);
    }
  }

  lemma BackedElsewhere(w: World, t: Task)
    requires Wf(w) && t in w.tasks && t.parentSubtask != null
    ensures t.parentSubtask in w.subs && t.parentSubtask.parentTask != t
  {
  }

  lemma ResolveEnds(w: World, s: Subtask, v: JsValue, t: Task)
    requires s in w.subs && s.parentTask in w.tasks && ResolvedState(w.subs[s], v).Some?
    requires t in w.tasks && t != s.parentTask
    ensures var w' := AfterResolve(w, s, v);
            s in w'.subs && Terminal(w'.subs[s].state) && t in w'.tasks && w'.tasks[t] == w.tasks[t]
  {
  }

  lemma TaskCancelEvolves(w: World, t: Task, v: JsValue)
    requires Wf(w) && t in w.tasks && !w.tasks[t].rejected
    ensures Evolves(w, AfterCancel(w, t, v))
    ensures Quiet(w) ==> Quiet(AfterCancel(w, t, v))
    ensures CancelSettled(AfterCancel(w, t, v), t)
  {
    CancelSettles(w, t, v);
    hide Wf, Evolves, Quiet, AfterOnResolve, AfterCancel, CancelSettled;
    CancelUnfold(w, t, v);
    var w1 := Acknowledge(w, t);
    SetTaskEvolves(w, t, w.tasks[t].(cancelled := true));
    OnResolveEvolves(w1, t, v);
    var w2 := AfterOnResolve(w1, t, v);
    FinishEvolves(w2, t);
    EvolvesTrans(w, w1, w2);
    EvolvesTrans(w, w2, Finish(w2, t));
  }

  lemma RequestCancelEvolves(w: World, s: Subtask)
    requires Wf(w) && s in w.subs && !w.subs[s].cancelRequested
    ensures Evolves(w, AfterRequestCancel(w, s))
    ensures Quiet(w) ==> Quiet(AfterRequestCancel(w, s))
  {
    MarkCancelledWf(w, s);
    var w1 := MarkCancelled(w, s);
    assert Evolves(w, w1);
    assert SubSound(w1, s);
    if !w.subs[s].resolved && w.subs[s].childTask == null {
      ResolveEvolves(w1, s, Nothing);
      EvolvesTrans(w, w1, AfterResolve(w1, s, Nothing));
    }
  }

  /** One operation keeps no rejection half done and only moves records on. */
  lemma StepEvolves(w: World, op: Op)
    requires Wf(w)
    ensures Evolves(w, Step(w, op))
    ensures Quiet(w) ==> Quiet(Step(w, op))
  {
    if Enabled(w, op) {
      match op
      case ResolveSub(s, v) => ResolveEvolves(w, s, v);
      case RequestCancel(s) => RequestCancelEvolves(w, s);
      case ResolveTask(t, v) => TaskResolveEvolves(w, t, v);
      case ResolveSeveral(t) => FinishEvolves(w, t);
      case CancelTask(t) => TaskCancelEvolves(w, t, Nothing);
      case Start(s) => StartEvolves(w, s);
      case Reject(t) =>
        RejectEvolves(w, t);
        if Quiet(w) { RejectQuiet(w, t); }
      case _ => CreateEvolves(w, op);
    }
  }

  lemma StartEvolves(w: World, s: Subtask)
    requires Wf(w) && s in w.subs && w.subs[s].state == STARTING
    ensures Evolves(w, AfterStart(w, s))
    ensures Quiet(w) ==> Quiet(AfterStart(w, s))
  {
    ResolvedIffTerminal(w, s);
    StartUnfold(w, s);
    hide Wf, AfterStart;
  }

  lemma CreateEvolves(w: World, op: Op)
    requires Wf(w) && Enabled(w, op)
    requires op.CreateTask? || op.CreateSub? || op.Register? || op.SetChild? || op.DeliverCancel?
    ensures Evolves(w, Step(w, op))
    ensures Quiet(w) ==> Quiet(Step(w, op))
  {
    hide Wf, Evolves;
    match op
    case CreateTask(t, handler) => Extends(w, SetTask(w, t, NewTaskRec(handler)));
    case CreateSub(s, rep) => Extends(w, Enlist(w, s, rep));
    case Register(t, handler) =>
      SetTaskEvolves(w, t, RegisteredRec(w.tasks[t], handler));
      QuietAt(w, t);
    case SetChild(s, t) => ChildEvolves(w, s, t);
    case DeliverCancel(t) => SetTaskEvolves(w, t, w.tasks[t].(state := CANCEL_DELIVERED));
  }

  lemma ChildEvolves(w: World, s: Subtask, t: Task)
    requires s in w.subs
    ensures Evolves(w, WithChild(w, s, t))
  {
  }

  lemma Extends(w: World, w': World)
    requires forall s :: s in w.subs ==> s in w'.subs && w'.subs[s] == w.subs[s]
    requires forall t :: t in w.tasks ==> t in w'.tasks && TaskEvolves(w.tasks[t], w'.tasks[t])
    ensures Evolves(w, w')
  {
  }

  /** Histories are legal paths that only grew, what was resolved stayed so, no handler ran twice. */
  ghost predicate Safe(w: World, w': World) {
    && Evolves(w, w')
    && (forall s {:trigger s in w'.subs} :: s in w'.subs ==> Legal(w'.subs[s].history))
    && (forall t {:trigger t in w'.tasks} :: t in w'.tasks ==> NoDuplicates(w'.tasks[t].fired))
  }

  /** In every run no rejection stays half done, and records only move on. */
  lemma {:induction false} RunQuiet(w: World, ops: seq<Op>)
    requires Wf(w) && Quiet(w)
    ensures Quiet(Run(w, ops)) && Evolves(w, Run(w, ops))
  {
    if ops != [] {
      var before := Run(w, ops[..|ops| - 1]);
      RunQuiet(w, ops[..|ops| - 1]);
      StepEvolves(before, ops[|ops| - 1]);
      EvolvesTrans(w, before, Run(w, ops));
    }
  }

  /**
   Every interleaving: subtask histories stay legal and only grow, a resolved subtask
   never changes its state or result again, and on-resolve handlers run at most once.
   */
  lemma {:induction false} RunSafety(w: World, ops: seq<Op>)
    requires Wf(w) && Quiet(w)
    ensures Safe(w, Run(w, ops))
  {
    RunQuiet(w, ops);
    var w' := Run(w, ops);
    hide Run, Evolves, Quiet;
    forall s | s in w'.subs ensures Legal(w'.subs[s].history) {
      assert SubSound(w', s);
    }
    forall t | t in w'.tasks ensures NoDuplicates(w'.tasks[t].fired) {
      assert TaskSound(w', t);
      FiredDistinct(w'.tasks[t].fired, w'.tasks[t].onResolveHandlers);
    }
  }

  lemma FiredDistinct(a: seq<nat>, b: seq<nat>)
    requires NoDuplicates(a + b)
    ensures NoDuplicates(a)
  {
    forall i, j | 0 <= i < j < |a| ensures a[i] != a[j] {
      assert (a + b)[i] == a[i] && (a + b)[j] == a[j];
    }
  }

  /** A subtask is in a terminal state at most once, and then for good. */
  lemma TerminalIsLast(h: seq<SubtaskState>)
    requires Legal(h)
    ensures forall i :: 0 <= i < |h| - 1 ==> !Terminal(h[i])
  {
    forall i | 0 <= i < |h| - 1 ensures !Terminal(h[i]) {
      assert Arrow(h[i], h[i + 1]);
    }
  }

  /** A value that arrives after its subtask was cancelled or settled reaches no subtask. */
  lemma LateValueDiscarded(w: World, t: Task, v: JsValue)
    requires Wf(w) && t in w.tasks && t.parentSubtask != null && Terminal(w.subs[t.parentSubtask].state)
    ensures Step(w, ResolveTask(t, v)).subs == w.subs && Step(w, ResolveTask(t, v)).live == w.live
  {
  }

  // ----- what the operations do, field by field ---------------------------------------------

  /** All handlers registered ran, in the order of registration, and none is left to run. */
  predicate AllRan(r: TaskRec, r': TaskRec) {
    r'.fired == r.fired + r.onResolveHandlers && r'.onResolveHandlers == []
  }

  /** A value accepted for a subtask is its result, unless it acknowledges a cancellation with none. */
  predicate EndsWith(r: SubRec, r': SubRec, v: JsValue) {
    && r'.resolved && r'.result == Some(v)
    && (v == Nothing && r.cancelRequested && r.state == STARTING ==> r'.state == CANCELLED_BEFORE_STARTED)
    && (v == Nothing && r.cancelRequested && r.state == STARTED ==> r'.state == CANCELLED_BEFORE_RETURNED)
    && (v != Nothing || !r.cancelRequested ==> r.state == STARTED && r'.state == RETURNED)
  }

  predicate EndsCancelled(r: SubRec, r': SubRec) {
    && r'.resolved && r'.result == r.result
    && (r.state == STARTING ==> r'.state == CANCELLED_BEFORE_STARTED)
    && (r.state == STARTED ==> r'.state == CANCELLED_BEFORE_RETURNED)
  }

  /** When a value is accepted: after the start, or as the acknowledgement of a requested cancellation. */
  lemma AcceptedIff(r: SubRec, v: JsValue)
    ensures ResolvedState(r, v).Some? <==>
              r.state == STARTED || (r.state == STARTING && v == Nothing && r.cancelRequested)
  {
  }

  /** A resolution: the subtask ends with the value, leaves its parent's list, and its handle is freed. */
  lemma ResolveEffect(w: World, s: Subtask, v: JsValue)
    requires Wf(w) && s in w.subs && s.parentTask in w.tasks && ResolvedState(w.subs[s], v).Some?
    ensures var w', p, rep := AfterResolve(w, s, v), s.parentTask, w.subs[s].rep;
            && s in w'.subs && EndsWith(w.subs[s], w'.subs[s], v)
            && p in w'.tasks && (forall x :: x in w'.tasks[p].subtasks <==> x in w.tasks[p].subtasks && x != s)
            && w'.tasks[p].(subtasks := w.tasks[p].subtasks) == w.tasks[p]
            && (s.isAsync ==> w'.live == w.live && !w'.subs[s].delivered)
            && (!s.isAsync ==> w'.live == w.live - {rep} && w'.subs[s].delivered && w'.subs[s].dropped == (rep != 0))
            && (forall x :: x in w.subs && x != s ==> x in w'.subs && w'.subs[x] == w.subs[x])
            && (forall u :: u in w.tasks && u != p ==> u in w'.tasks && w'.tasks[u] == w.tasks[u])
  {
    ResolveWf(w, s, v);
    hide Wf, Without;
  }

  /** What `onResolve` does to its own task and to the parent subtask. */
  ghost predicate DeliveredTo(w: World, w': World, t: Task, v: JsValue)
    requires t in w.tasks
  {
    var s := t.parentSubtask;
    && t in w'.tasks && AllRan(w.tasks[t], w'.tasks[t])
    && (s != null && s in w.subs && !Terminal(w.subs[s].state) ==>
          s in w'.subs && EndsWith(w.subs[s], w'.subs[s], v))
    && (s == null || (s in w.subs && Terminal(w.subs[s].state)) ==> w'.subs == w.subs && w'.live == w.live)
  }

  lemma OnResolveEffect(w: World, t: Task, v: JsValue)
    requires Wf(w) && t in w.tasks && !w.tasks[t].rejected
    ensures DeliveredTo(w, AfterOnResolve(w, t, v), t, v)
  {
    OnResolveUnfold(w, t, v);
    if t.parentSubtask != null { BackedElsewhere(w, t); }
    hide Wf, AfterOnResolve, AfterResolve, ResolvedState;
    var w1, s := SetTask(w, t, FiredRec(w.tasks[t])), t.parentSubtask;
    if s != null && !Terminal(w.subs[s].state) {
      ResolveEffect(w1, s, v);
    }
  }

  /** A completed task has run all its handlers, and a pending parent subtask has the value. */
  lemma TaskResolveEffect(w: World, t: Task, v: JsValue)
    requires Wf(w) && t in w.tasks && !w.tasks[t].rejected
    ensures DeliveredTo(w, AfterTaskResolve(w, t, v), t, v)
  {
    hide Wf, AfterOnResolve, AfterTaskResolve;
    ResolveUnfold(w, t, v);
    OnResolveEffect(Finish(w, t), t, v);
  }

  /** So has a task that acknowledges a cancellation. */
  lemma CancelEffect(w: World, t: Task, v: JsValue)
    requires Wf(w) && t in w.tasks && !w.tasks[t].rejected
    ensures DeliveredTo(w, AfterCancel(w, t, v), t, v)
  {
    hide Wf, AfterOnResolve, AfterCancel;
    CancelUnfold(w, t, v);
    OnResolveEffect(Acknowledge(w, t), t, v);
  }

  /** A rejection cancels every subtask on its path, runs all handlers of every task on it, and resolves them. */
  lemma RejectCancels(w: World, t: Task)
    requires Wf(w) && t in w.tasks
    ensures var w' := AfterReject(w, t);
            && (forall s :: s in ChainSubs(w, t) ==>
                  s in w.subs && s in w'.subs && !Terminal(w.subs[s].state) && EndsCancelled(w.subs[s], w'.subs[s]))
            && (forall u :: u in ChainTasks(w, t) ==>
                  u in w.tasks && u in w'.tasks && w'.tasks[u].state == RESOLVED && w'.tasks[u].rejected
                  && w'.tasks[u].cancelled && AllRan(w.tasks[u], w'.tasks[u]))
  {
    var w' := AfterReject(w, t);
    forall s | s in ChainSubs(w, t)
      ensures s in w.subs && s in w'.subs && !Terminal(w.subs[s].state) && EndsCancelled(w.subs[s], w'.subs[s])
    {
      ChainSubCancelled(w, t, s);
    }
    forall u | u in ChainTasks(w, t)
      ensures u in w.tasks && u in w'.tasks && w'.tasks[u].state == RESOLVED && w'.tasks[u].rejected
              && w'.tasks[u].cancelled && AllRan(w.tasks[u], w'.tasks[u])
    {
      ChainTaskSettled(w, t, u);
    }
  }

  lemma ChainSubCancelled(w: World, t: Task, s: Subtask)
    requires Wf(w) && t in w.tasks && s in ChainSubs(w, t)
    ensures s in w.subs && !Terminal(w.subs[s].state) && EndsCancelled(w.subs[s], AfterReject(w, t).subs[s])
  {
    RejectReach(w, t);
    ChainUnresolved(w, t);
    ResolvedIffTerminal(w, s);
    hide Wf, AfterReject, ChainSubs;
    assert SubAfter(w.subs[s], AfterReject(w, t).subs[s], s in ChainSubs(w, t));
  }

  lemma ChainTaskSettled(w: World, t: Task, u: Task)
    requires Wf(w) && t in w.tasks && u in ChainTasks(w, t)
    ensures u in w.tasks
    ensures var r' := AfterReject(w, t).tasks[u];
            r'.state == RESOLVED && r'.rejected && r'.cancelled && AllRan(w.tasks[u], r')
  {
    RejectExtent(w, t);
    ChainUnresolved(w, t);
    hide Wf, AfterReject, ChainSubs, ChainTasks;
    var r, r' := w.tasks[u], AfterReject(w, t).tasks[u];
    assert TaskAfter(w, AfterReject(w, t), u, u in ChainTasks(w, t), ChainSubs(w, t));
    assert r'.(subtasks := r.subtasks) == RejectedRec(r).(state := RESOLVED);
  }

  /** The path of a rejection: from an unsettled task over its parent subtask, if that is pending, to the task above. */
  lemma ChainExact(w: World, t: Task)
    requires Wf(w) && t in w.tasks
    ensures t in ChainTasks(w, t) <==> w.tasks[t].state != RESOLVED && !w.tasks[t].rejected
    ensures var s := t.parentSubtask;
            && (t in ChainTasks(w, t) && s != null && !Terminal(w.subs[s].state) ==>
                  && s in ChainSubs(w, t) && ChainTasks(w, s.parentTask) <= ChainTasks(w, t)
                  && ChainSubs(w, s.parentTask) <= ChainSubs(w, t))
            && (s == null || Terminal(w.subs[s].state) ==> ChainSubs(w, t) == {})
  {
    if t.parentSubtask != null { ResolvedIffTerminal(w, t.parentSubtask); }
    ChainBelow(w, t);
    if PassesOn(w, t) { ChainBelow(w, t.parentSubtask.parentTask); }
  }

  /** A subtask that is rejected itself ends cancelled; one that has settled does not change. */
  lemma RejectSubEffect(w: World, s: Subtask)
    requires Wf(w) && s in w.subs
    ensures var w' := AfterRejectSub(w, s);
            && s in w'.subs
            && (Terminal(w.subs[s].state) ==> w' == w)
            && (!Terminal(w.subs[s].state) ==> EndsCancelled(w.subs[s], w'.subs[s]))
  {
    ResolvedIffTerminal(w, s);
    RejectSubUnfold(w, s);
    if !w.subs[s].resolved {
      var w2 := Retire(w, s, RejectedSubRec(w.subs[s]));
      RejectReach(w2, s.parentTask);
      ChainUnresolved(w2, s.parentTask);
      hide Wf, AfterReject, AfterRejectSub, ChainSubs, ChainTasks;
      assert SubAfter(w2.subs[s], AfterReject(w2, s.parentTask).subs[s], s in ChainSubs(w2, s.parentTask));
    }
  }

  /** A cancellation request: a running callee is asked once, a host call counts as cancelled. */
  lemma RequestEffect(w: World, s: Subtask)
    requires Wf(w) && s in w.subs && !w.subs[s].cancelRequested
    ensures var w', r, c := AfterRequestCancel(w, s), w.subs[s], w.subs[s].childTask;
            && s in w'.subs && w'.subs[s].cancelRequested
            && (Terminal(r.state) ==> w'.subs[s] == r.(cancelRequested := true) && w'.tasks == w.tasks)
            && (!Terminal(r.state) && c == null ==> EndsCancelled(r.(result := Some(Nothing)), w'.subs[s]))
            && (!Terminal(r.state) && c != null ==>
                  && c in w.tasks && c in w'.tasks && w'.subs[s] == r.(cancelRequested := true)
                  && (w.tasks[c].state != RESOLVED ==> w'.tasks[c].cancelRequested)
                  && (w.tasks[c].state == INITIAL && !w.tasks[c].cancelRequested ==>
                        w'.tasks[c].state == CANCEL_PENDING)
                  && (w.tasks[c].state != INITIAL || w.tasks[c].cancelRequested ==>
                        w'.tasks[c].state == w.tasks[c].state))
  {
    RequestUnfold(w, s);
    ResolvedIffTerminal(w, s);
    MarkCancelledWf(w, s);
    hide Wf, AfterRequestCancel, AfterResolve;
    if !w.subs[s].resolved && w.subs[s].childTask == null {
      ResolveEffect(MarkCancelled(w, s), s, Nothing);
    }
  }

  /** A start moves the subtask to its started state and touches nothing else. */
  lemma StartEffect(w: World, s: Subtask)
    requires Wf(w) && s in w.subs && w.subs[s].state == STARTING
    ensures var w' := AfterStart(w, s);
            && w'.tasks == w.tasks && w'.live == w.live && w'.subs.Keys == w.subs.Keys
            && w'.subs[s].state == STARTED && !w'.subs[s].resolved && w'.subs[s].result == None
            && forall x :: x in w.subs && x != s ==> w'.subs[x] == w.subs[x]
  {
    ResolvedIffTerminal(w, s);
    StartUnfold(w, s);
    hide Wf, AfterStart;
  }

  /** A new subtask is starting, the last of its parent's list, and owns a handle of its own. */
  lemma CreateSubEffect(w: World, s: Subtask, rep: nat)
    requires s !in w.subs && s.parentTask in w.tasks && rep !in w.live
    ensures var w', p := Enlist(w, s, rep), s.parentTask;
            && w'.tasks[p].subtasks == w.tasks[p].subtasks + [s] && w'.live == w.live[rep := s]
            && w'.subs[s].state == STARTING && w'.subs[s].rep == rep && w'.subs[s].childTask == null
            && !w'.subs[s].cancelRequested && !w'.subs[s].resolved && w'.subs[s].result == None
  {
  }

  /** A new task is in its initial state with the one handler that settles its promise. */
  lemma CreateTaskEffect(w: World, t: Task, handler: nat)
    ensures var r := SetTask(w, t, NewTaskRec(handler)).tasks[t];
            && r.state == INITIAL && !r.rejected && !r.cancelRequested && !r.cancelled
            && r.onResolveHandlers == [handler] && r.subtasks == [] && r.fired == []
  {
  }

  /** Delivering a cancellation moves the task on; a registration joins the others; a child is linked: no more. */
  lemma SmallEffects(w: World, t: Task, s: Subtask, handler: nat)
    requires Wf(w) && t in w.tasks && s in w.subs
    ensures w.tasks[t].state == CANCEL_PENDING ==>
              AfterDeliverCancel(w, t).tasks == w.tasks[t := w.tasks[t].(state := CANCEL_DELIVERED)]
              && AfterDeliverCancel(w, t).subs == w.subs && AfterDeliverCancel(w, t).live == w.live
    ensures handler !in w.tasks[t].fired + w.tasks[t].onResolveHandlers ==>
              var w', hs := AfterRegister(w, t, handler), w.tasks[t].onResolveHandlers + [handler];
              w'.tasks == w.tasks[t := w.tasks[t].(onResolveHandlers := hs)] && w'.subs == w.subs && w'.live == w.live
    ensures t.parentSubtask == s ==>
              var w' := AfterSetChild(w, s, t);
              w'.subs == w.subs[s := w.subs[s].(childTask := t)] && w'.tasks == w.tasks && w'.live == w.live
  {
    hide Wf;
  }

  /** Filtering takes out the one entry and keeps the order of the others. */
  lemma {:induction false} WithoutExact<T>(a: seq<T>, y: T, b: seq<T>)
    requires y !in a && y !in b
    ensures Without(a + [y] + b, y) == a + b
  {
    hide Without, NoDuplicates;
    var s := a + [y] + b;
    WithoutFirst(s, y);
    if a == [] {
      assert s[0] == y && s[1..] == b;
    } else {
      assert s[0] == a[0] && s[1..] == a[1..] + [y] + b;
      WithoutExact(a[1..], y, b);
      assert [a[0]] + (a[1..] + b) == a + b;
    }
  }

  lemma WithoutFirst<T>(s: seq<T>, y: T)
    requires s != []
    ensures Without(s, y) == (if s[0] == y then [] else [s[0]]) + Without(s[1..], y)
  {
    hide NoDuplicates;
  }

  /** A task without results delivers `undefined`, and otherwise its first result. */
  lemma ResultExact(v: JsValue, rest: seq<JsValue>)
    ensures ResultOf([]) == Undefined && ResultOf([v] + rest) == v
  {
  }

  /** Which operations are possible, in terms of the records alone. */
  lemma EnabledExact(w: World, t: Task, s: Subtask, v: JsValue)
    requires Wf(w) && t in w.tasks && s in w.subs
    ensures Enabled(w, Reject(t))
    ensures Enabled(w, ResolveTask(t, v)) <==> w.tasks[t].state != RESOLVED && !w.tasks[t].rejected
    ensures Enabled(w, CancelTask(t)) <==> w.tasks[t].state == CANCEL_DELIVERED && !w.tasks[t].rejected
    ensures Enabled(w, DeliverCancel(t)) <==> w.tasks[t].state == CANCEL_PENDING
    ensures Enabled(w, RequestCancel(s)) <==> !w.subs[s].cancelRequested
    ensures Enabled(w, Start(s)) <==> w.subs[s].state == STARTING
    ensures Enabled(w, ResolveSub(s, v)) <==>
            w.subs[s].state == STARTED || (w.subs[s].state == STARTING && v == Nothing && w.subs[s].cancelRequested)
  {
  }

  /** No operation but a resolution makes a subtask returned. */
  lemma ReturnedOnlyByResolution(w: World, op: Op, s: Subtask)
    requires Wf(w) && s in w.subs && w.subs[s].state != RETURNED
    requires s in Step(w, op).subs && Step(w, op).subs[s].state == RETURNED
    ensures Enabled(w, op)
    ensures (op.ResolveSub? && op.s == s) || (op.ResolveTask? && op.t.parentSubtask == s)
    ensures w.subs[s].state == STARTED && Step(w, op).subs[s].result.Some?
  {
    hide Wf, AfterResolve, AfterReject, AfterCancel, AfterRequestCancel, AfterOnResolve, AfterStart;
    StepLegal(w, op, s);
    match op
    case Start(x) => StartUnfold(w, x);
    case ResolveSub(x, v) => Shape(w, x); ResolveEffect(w, x, v);
    case RequestCancel(x) => RequestNeverReturns(w, x, s);
    case ResolveTask(t, v) => ResolveTouches(w, t, v, s);
    case CancelTask(t) => CancelNeverReturns(w, t, s);
    case Reject(t) => RejectNeverReturns(w, t, s);
    case _ =>
  }

  lemma ResolveTouches(w: World, t: Task, v: JsValue, s: Subtask)
    requires Wf(w) && Enabled(w, ResolveTask(t, v)) && s in w.subs
    ensures var w' := Step(w, ResolveTask(t, v));
            && s in w'.subs && (s != t.parentSubtask || Terminal(w.subs[s].state) ==> w'.subs[s] == w.subs[s])
            && (s == t.parentSubtask && !Terminal(w.subs[s].state) ==> EndsWith(w.subs[s], w'.subs[s], v))
  {
    TaskResolveEffect(w, t, v);
    FinishWf(w, t);
    hide Wf, AfterOnResolve, AfterTaskResolve;
    ResolveUnfold(w, t, v);
    if s != t.parentSubtask || Terminal(w.subs[s].state) {
      OnResolveOthers(Finish(w, t), t, v, s);
    }
  }

  lemma OnResolveOthers(w: World, t: Task, v: JsValue, s: Subtask)
    requires Wf(w) && t in w.tasks && !w.tasks[t].rejected && s in w.subs
    requires s != t.parentSubtask || Terminal(w.subs[s].state)
    ensures s in AfterOnResolve(w, t, v).subs && AfterOnResolve(w, t, v).subs[s] == w.subs[s]
  {
    hide Wf, AfterOnResolve, AfterResolve, ResolvedState;
    OnResolveUnfold(w, t, v);
    var w1, p := SetTask(w, t, FiredRec(w.tasks[t])), t.parentSubtask;
    if p != null && !Terminal(w.subs[p].state) {
      ResolveEffect(w1, p, v);
    }
  }

  lemma CancelNeverReturns(w: World, t: Task, s: Subtask)
    requires Wf(w) && Enabled(w, CancelTask(t)) && s in w.subs && w.subs[s].state != RETURNED
    ensures s in Step(w, CancelTask(t)).subs && Step(w, CancelTask(t)).subs[s].state != RETURNED
  {
    DeliveredMeansAsked(w, t);
    CancelEffect(w, t, Nothing);
    CancelledWf(w, t);
    hide Wf, AfterOnResolve, AfterCancel;
    CancelUnfold(w, t, Nothing);
    if s != t.parentSubtask || Terminal(w.subs[s].state) {
      OnResolveOthers(Acknowledge(w, t), t, Nothing, s);
    }
  }

  lemma DeliveredMeansAsked(w: World, t: Task)
    requires Wf(w) && t in w.tasks && w.tasks[t].state == CANCEL_DELIVERED && !w.tasks[t].rejected
    ensures t.parentSubtask != null && t.parentSubtask in w.subs && w.subs[t.parentSubtask].cancelRequested
  {
    assert TaskSound(w, t);
  }

  lemma RequestNeverReturns(w: World, x: Subtask, s: Subtask)
    requires Wf(w) && Enabled(w, RequestCancel(x)) && s in w.subs && w.subs[s].state != RETURNED
    ensures s in Step(w, RequestCancel(x)).subs && Step(w, RequestCancel(x)).subs[s].state != RETURNED
  {
    RequestEffect(w, x);
    RequestUnfold(w, x);
    ResolvedIffTerminal(w, x);
    hide Wf, AfterRequestCancel, AfterResolve;
    if s != x && !w.subs[x].resolved && w.subs[x].childTask == null {
      ResolveEffect(MarkCancelled(w, x), x, Nothing);
    }
  }

  lemma RejectNeverReturns(w: World, t: Task, s: Subtask)
    requires Wf(w) && t in w.tasks && s in w.subs && w.subs[s].state != RETURNED
    ensures AfterReject(w, t).subs[s].state != RETURNED
  {
    RejectReach(w, t);
    if s in ChainSubs(w, t) { RejectCancels(w, t); }
    hide Wf, AfterReject, ChainSubs, ChainTasks;
    assert SubAfter(w.subs[s], AfterReject(w, t).subs[s], s in ChainSubs(w, t));
  }

  lemma StepLegal(w: World, op: Op, s: Subtask)
    requires Wf(w) && s in Step(w, op).subs
    ensures var r := Step(w, op).subs[s]; r.state == RETURNED ==> r.result.Some?
  {
    assert SubSound(Step(w, op), s);
  }

  /** A rejection of `t` does not reach tasks further from the root. */
  lemma {:induction false} RejectUpwards(w: World, t: Task, u: Task)
    requires Wf(w) && t in w.tasks && u in w.tasks && u.depth > t.depth
    ensures AfterReject(w, t).tasks[u] == w.tasks[u]
    decreases t.depth
  {
    if PassesOn(w, t) {
      RejectUnfold(w, t);
      assert t.parentSubtask.parentTask.depth < t.depth;
      hide AfterReject;
      RejectUpwards(RejectStep(w, t), t.parentSubtask.parentTask, u);
    }
  }

  /** What `onResolve` leaves of its own task, rejected or not. */
  lemma OnResolveOwn(w: World, t: Task, v: JsValue)
    requires Wf(w) && t in w.tasks
    ensures t in AfterOnResolve(w, t, v).tasks && AfterOnResolve(w, t, v).tasks[t] == FiredRec(w.tasks[t])
  {
    OnResolveUnfold(w, t, v);
    FiredWf(w, t);
    var w1, s := SetTask(w, t, FiredRec(w.tasks[t])), t.parentSubtask;
    if s != null {
      BackedElsewhere(w, t);
      assert s.parentTask.depth < t.depth;
      if w.tasks[t].rejected {
        RejectSubUpwards(w1, s, t);
      } else if !Terminal(w.subs[s].state) {
        hide Wf, AfterOnResolve, AfterResolve, ResolvedState;
        ResolveEffect(w1, s, v);
      }
    }
  }

  lemma RejectSubUpwards(w: World, s: Subtask, u: Task)
    requires Wf(w) && s in w.subs && u in w.tasks && u.depth > s.parentTask.depth
    ensures AfterRejectSub(w, s).tasks[u] == w.tasks[u]
  {
    RejectSubUnfold(w, s);
    if !w.subs[s].resolved {
      hide AfterReject, AfterRejectSub;
      RejectUpwards(Retire(w, s, RejectedSubRec(w.subs[s])), s.parentTask, u);
    }
  }

  lemma FiredAll(r: TaskRec)
    ensures AllRan(r, FiredRec(r)) && FiredRec(r).state == r.state && FiredRec(r).cancelled == r.cancelled
    ensures FiredRec(r).rejected == r.rejected && FiredRec(r).cancelRequested == r.cancelRequested
  {
  }

  /** What `resolve`, `cancel` and `reject` leave of their own task. */
  lemma SettledOwn(w: World, t: Task, v: JsValue)
    requires Wf(w) && t in w.tasks
    ensures var r, r' := w.tasks[t], AfterTaskResolve(w, t, v).tasks[t];
            t in AfterTaskResolve(w, t, v).tasks && AllRan(r, r') && r'.state == RESOLVED
    ensures var r, r' := w.tasks[t], AfterCancel(w, t, v).tasks[t];
            && t in AfterCancel(w, t, v).tasks && AllRan(r, r') && r'.state == RESOLVED && r'.cancelled
            && r'.rejected == r.rejected && r'.cancelRequested == r.cancelRequested
  {
    FinishWf(w, t);
    CancelledWf(w, t);
    hide Wf, AfterOnResolve, AfterTaskResolve, AfterCancel;
    ResolveUnfold(w, t, v);
    CancelUnfold(w, t, v);
    OnResolveOwn(Finish(w, t), t, v);
    OnResolveOwn(Acknowledge(w, t), t, v);
  }

  /** Rejected, all handlers run, nothing left to do. */
  predicate EndsRejected(r: TaskRec, r': TaskRec) {
    AllRan(r, r') && r'.state == RESOLVED && r'.rejected && r'.cancelled && r'.cancelRequested
  }

  lemma RejectedOwn(w: World, t: Task)
    requires Wf(w) && t in w.tasks
    ensures t in AfterReject(w, t).tasks
    ensures Settled(w.tasks[t]) ==> AfterReject(w, t) == w
    ensures !Settled(w.tasks[t]) ==> EndsRejected(w.tasks[t], AfterReject(w, t).tasks[t])
  {
    RejectUnfolded(w, t, Nothing);
    BeginRejectWf(w, t);
    hide Wf, AfterReject, AfterCancel;
    if !Settled(w.tasks[t]) {
      SettledOwn(SetTask(w, t, BeginReject(w.tasks[t])), t, Nothing);
    }
  }

  // ----- handlers over runs -----------------------------------------------------------------------

  function Occurrences(s: seq<nat>, h: nat): nat {
    if s == [] then 0 else Occurrences(s[..|s| - 1], h) + if s[|s| - 1] == h then 1 else 0
  }

  lemma {:induction false} OccursOnce(s: seq<nat>, h: nat)
    requires NoDuplicates(s)
    ensures Occurrences(s, h) == if h in s then 1 else 0
  {
    if s != [] {
      var init := s[..|s| - 1];
      assert s == init + [s[|s| - 1]];
      OccursOnce(init, h);
    }
  }

  /** A registered handler is still registered or has run, after every run. */
  lemma HandlersKept(w: World, ops: seq<Op>, t: Task, h: nat)
    requires Wf(w) && Quiet(w) && t in w.tasks && h in w.tasks[t].fired + w.tasks[t].onResolveHandlers
    ensures var w' := Run(w, ops); t in w'.tasks && h in w'.tasks[t].fired + w'.tasks[t].onResolveHandlers
  {
    RunQuiet(w, ops);
    hide Wf, Quiet, Run;
    var r, r' := w.tasks[t], Run(w, ops).tasks[t];
    var i :| 0 <= i < |r.fired + r.onResolveHandlers| && (r.fired + r.onResolveHandlers)[i] == h;
    assert (r'.fired + r'.onResolveHandlers)[i] == h;
  }

  lemma FiredOnDelivery(w: World, op: Op, h: nat)
    requires Wf(w) && (op.ResolveTask? || op.CancelTask?) && Enabled(w, op) && h in w.tasks[op.t].onResolveHandlers
    ensures op.t in Step(w, op).tasks && h in Step(w, op).tasks[op.t].fired
  {
    hide Wf, AfterTaskResolve, AfterCancel;
    if op.ResolveTask? {
      TaskResolveEffect(w, op.t, op.v);
    } else {
      CancelEffect(w, op.t, Nothing);
    }
  }

  lemma FiredStays(w: World, ops: seq<Op>, t: Task, h: nat)
    requires Wf(w) && Quiet(w) && t in w.tasks && h in w.tasks[t].fired
    ensures t in Run(w, ops).tasks && Occurrences(Run(w, ops).tasks[t].fired, h) == 1
  {
    hide Wf, Quiet, Run, SubEvolves, SubSound, TaskSound, Occurrences;
    RunQuiet(w, ops);
    RunSafety(w, ops);
    var w' := Run(w, ops);
    assert t in w'.tasks && w.tasks[t].fired <= w'.tasks[t].fired && NoDuplicates(w'.tasks[t].fired);
    hide Evolves, Safe;
    OccursOnce(w'.tasks[t].fired, h);
  }

  /**
   A handler registered before its task completes or acknowledges a cancellation has run
   exactly once from then on, whatever follows.
   */
  lemma HandlerRunsOnce(w: World, op: Op, later: seq<Op>, h: nat)
    requires Wf(w) && Quiet(w) && (op.ResolveTask? || op.CancelTask?) && Enabled(w, op)
    requires h in w.tasks[op.t].onResolveHandlers
    ensures var w' := Run(Step(w, op), later); op.t in w'.tasks && Occurrences(w'.tasks[op.t].fired, h) == 1
  {
    hide Wf, Quiet, Step, Run, Evolves, Occurrences, Enabled;
    StepEvolves(w, op);
    FiredOnDelivery(w, op, h);
    FiredStays(Step(w, op), later, op.t, h);
  }

  // ----- the cancellation handshake ------------------------------------------------------------

  /**
   A supertask cancels a subtask whose backing task is still running: the request can be
   delivered, then acknowledged, and the acknowledgement settles both, with no value.
   */
  lemma CancelHandshake(w: World, s: Subtask)
    requires Wf(w) && s in w.subs && w.subs[s].state == STARTED && !w.subs[s].cancelRequested
    requires var t := w.subs[s].childTask;
             && t != null && t in w.tasks
             && w.tasks[t].state == INITIAL && !w.tasks[t].cancelRequested && !w.tasks[t].rejected
    ensures var t := w.subs[s].childTask;
            var w1 := Step(w, RequestCancel(s));
            var w2 := Step(w1, DeliverCancel(t));
            var w3 := Step(w2, CancelTask(t));
            && Enabled(w, RequestCancel(s)) && Enabled(w1, DeliverCancel(t)) && Enabled(w2, CancelTask(t))
            && t in w3.tasks && w3.tasks[t].state == RESOLVED && w3.tasks[t].cancelled
            && s in w3.subs && w3.subs[s].state == CANCELLED_BEFORE_RETURNED && w3.subs[s].result == Some(Nothing)
  {
    hide Wf, AfterRequestCancel, AfterCancel, AfterResolve;
    var t := w.subs[s].childTask;
    ResolvedIffTerminal(w, s);
    ChildBacks(w, s);
    RequestUnfold(w, s);
    var w1 := AfterRequestCancel(w, s);
    assert w1 == Step(w, RequestCancel(s));
    assert w1.tasks[t] == AskedRec(w.tasks[t]) && w1.subs[s] == w.subs[s].(cancelRequested := true);
    HandshakeEnds(w1, t, s);
  }

  lemma HandshakeEnds(w1: World, t: Task, s: Subtask)
    requires Wf(w1) && t in w1.tasks && w1.tasks[t].state == CANCEL_PENDING && !w1.tasks[t].rejected
    requires t.parentSubtask == s && s in w1.subs && w1.subs[s].state == STARTED && w1.subs[s].cancelRequested
    ensures var w2 := Step(w1, DeliverCancel(t));
            var w3 := Step(w2, CancelTask(t));
            && Enabled(w1, DeliverCancel(t)) && Enabled(w2, CancelTask(t))
            && t in w3.tasks && w3.tasks[t].state == RESOLVED && w3.tasks[t].cancelled
            && s in w3.subs && w3.subs[s].state == CANCELLED_BEFORE_RETURNED && w3.subs[s].result == Some(Nothing)
  {
    hide Wf, AfterCancel;
    var w2 := AfterDeliverCancel(w1, t);
    assert w2 == Step(w1, DeliverCancel(t));
    AcknowledgedSub(w2, t, s);
    assert Step(w2, CancelTask(t)) == AfterCancel(w2, t, Nothing);
  }

  lemma ChildBacks(w: World, s: Subtask)
    requires Wf(w) && s in w.subs && w.subs[s].childTask != null
    ensures w.subs[s].childTask in w.tasks && w.subs[s].childTask.parentSubtask == s
  {
    assert SubSound(w, s);
  }

  lemma AcknowledgedSub(w: World, t: Task, s: Subtask)
    requires Wf(w) && t in w.tasks && !w.tasks[t].rejected && t.parentSubtask == s && s in w.subs
    requires w.subs[s].state == STARTED && w.subs[s].cancelRequested
    ensures var w' := AfterCancel(w, t, Nothing);
            && t in w'.tasks && w'.tasks[t].state == RESOLVED && w'.tasks[t].cancelled
            && s in w'.subs && w'.subs[s].state == CANCELLED_BEFORE_RETURNED && w'.subs[s].result == Some(Nothing)
  {
    CancelUnfold(w, t, Nothing);
    var w1 := Acknowledge(w, t);
    OnResolveUnfold(w1, t, Nothing);
    assert s.parentTask != t;
    hide Wf, AfterOnResolve, AfterCancel, Without;
    var w2 := SetTask(w1, t, FiredRec(w1.tasks[t]));
    var w3 := AfterResolve(w2, s, Nothing);
    assert w3.tasks[t] == w2.tasks[t];
  }

  // ----- delivery to a waiting caller --------------------------------------------------------------

  /** A synchronous call's resolution was delivered exactly if there is a result, and its handle is free then. */
  ghost predicate DeliveredSub(w: World, s: Subtask)
    requires s in w.subs
  {
    var r := w.subs[s];
    && (r.delivered <==> !s.isAsync && r.result.Some?)
    && (r.delivered && r.rep in w.live ==> w.live[r.rep] != s)
  }

  ghost predicate AllDelivered(w: World) {
    forall s {:trigger s in w.subs} :: s in w.subs ==> DeliveredSub(w, s)
  }

  lemma SameSubsDelivered(w: World, w': World)
    requires AllDelivered(w) && w'.subs == w.subs && w'.live == w.live
    ensures AllDelivered(w')
  {
    forall s | s in w'.subs ensures DeliveredSub(w', s) {
      assert DeliveredSub(w, s);
    }
  }

  lemma MarkedDelivered(w: World, s: Subtask, r: SubRec)
    requires AllDelivered(w) && s in w.subs
    requires r.delivered == w.subs[s].delivered && r.result == w.subs[s].result && r.rep == w.subs[s].rep
    ensures AllDelivered(w.(subs := w.subs[s := r]))
  {
    var w' := w.(subs := w.subs[s := r]);
    forall x | x in w'.subs ensures DeliveredSub(w', x) {
      assert DeliveredSub(w, x);
    }
  }

  lemma EnlistDelivered(w: World, s: Subtask, rep: nat)
    requires AllDelivered(w) && s !in w.subs && s.parentTask in w.tasks && rep !in w.live
    ensures AllDelivered(Enlist(w, s, rep))
  {
    var w' := Enlist(w, s, rep);
    forall x | x in w'.subs ensures DeliveredSub(w', x) {
      assert x != s ==> DeliveredSub(w, x);
    }
  }

  lemma ResolveDelivered(w: World, s: Subtask, v: JsValue)
    requires Wf(w) && AllDelivered(w) && s in w.subs && s.parentTask in w.tasks && ResolvedState(w.subs[s], v).Some?
    ensures AllDelivered(AfterResolve(w, s, v))
  {
    ResolveWf(w, s, v);
    hide Wf, Without, ResolvedState;
    var w' := AfterResolve(w, s, v);
    forall x | x in w'.subs ensures DeliveredSub(w', x) {
      assert DeliveredSub(w, x);
    }
  }

  lemma OnResolveDelivered(w: World, t: Task, v: JsValue)
    requires Wf(w) && AllDelivered(w) && t in w.tasks && !w.tasks[t].rejected
    ensures AllDelivered(AfterOnResolve(w, t, v))
  {
    hide Wf, AllDelivered, AfterResolve, AfterOnResolve;
    OnResolveUnfold(w, t, v);
    var w1, s := SetTask(w, t, FiredRec(w.tasks[t])), t.parentSubtask;
    SameSubsDelivered(w, w1);
    if s != null && !Terminal(w.subs[s].state) {
      ResolveDelivered(w1, s, v);
    }
  }

  lemma RejectDelivered(w: World, t: Task)
    requires Wf(w) && AllDelivered(w) && t in w.tasks
    ensures AllDelivered(AfterReject(w, t))
  {
    RejectReach(w, t);
    var w' := AfterReject(w, t);
    hide Wf, AfterReject, ChainSubs;
    forall x | x in w'.subs ensures DeliveredSub(w', x) {
      assert DeliveredSub(w, x) && SubAfter(w.subs[x], w'.subs[x], x in ChainSubs(w, t));
    }
  }

  lemma CancelDelivered(w: World, t: Task, v: JsValue)
    requires Wf(w) && AllDelivered(w) && t in w.tasks && !w.tasks[t].rejected
    ensures AllDelivered(AfterCancel(w, t, v))
  {
    hide Wf, AllDelivered, AfterOnResolve, AfterCancel;
    CancelUnfold(w, t, v);
    var w1 := Acknowledge(w, t);
    SameSubsDelivered(w, w1);
    OnResolveDelivered(w1, t, v);
    SameSubsDelivered(AfterOnResolve(w1, t, v), AfterCancel(w, t, v));
  }

  lemma RequestDelivered(w: World, s: Subtask)
    requires Wf(w) && AllDelivered(w) && s in w.subs && !w.subs[s].cancelRequested
    ensures AllDelivered(AfterRequestCancel(w, s))
  {
    hide Wf, AllDelivered, AfterResolve, AfterRequestCancel;
    RequestUnfold(w, s);
    var w1, c := MarkCancelled(w, s), w.subs[s].childTask;
    MarkedDelivered(w, s, w.subs[s].(cancelRequested := true));
    if !w.subs[s].resolved && c != null {
      SameSubsDelivered(w1, SetTask(w1, c, AskedRec(w.tasks[c])));
    } else if !w.subs[s].resolved {
      ResolveDelivered(w1, s, Nothing);
    }
  }

  lemma StepDelivered(w: World, op: Op)
    requires Wf(w) && AllDelivered(w)
    ensures AllDelivered(Step(w, op))
  {
    hide Wf, AllDelivered, AfterResolve, AfterReject, AfterCancel, AfterRequestCancel, AfterOnResolve, AfterStart;
    if Enabled(w, op) {
      match op
      case CreateSub(s, rep) => EnlistDelivered(w, s, rep);
      case SetChild(s, t) => MarkedDelivered(w, s, w.subs[s].(childTask := t));
      case Start(s) =>
        StartUnfold(w, s);
        MarkedDelivered(w, s, StartedRec(w.subs[s]));
      case ResolveSub(s, v) => Shape(w, s); ResolveDelivered(w, s, v);
      case RequestCancel(s) => RequestDelivered(w, s);
      case ResolveTask(t, v) =>
        FinishWf(w, t);
        SameSubsDelivered(w, Finish(w, t));
        OnResolveDelivered(Finish(w, t), t, v);
      case CancelTask(t) => CancelDelivered(w, t, Nothing);
      case Reject(t) => RejectDelivered(w, t);
      case _ => SameSubsDelivered(w, Step(w, op));
    }
  }

  /**
   In every run the resolution of a synchronous call is delivered exactly when there is a
   result to deliver, once, and frees the call's handle.
   */
  lemma {:induction false} RunDelivered(w: World, ops: seq<Op>)
    requires Wf(w) && AllDelivered(w)
    ensures AllDelivered(Run(w, ops))
  {
    if ops != [] {
      RunDelivered(w, ops[..|ops| - 1]);
      StepDelivered(Run(w, ops[..|ops| - 1]), ops[|ops| - 1]);
    }
  }

  // ----- the objects ----------------------------------------------------------------------------

  /** The objects in play, and the component's table of waitable handles. */
  datatype Forest = Forest(tasks: set<Task>, subs: set<Subtask>, handles: RepTables.RepTable<Subtask>)

  ghost function TaskRecs(ts: set<Task>): map<Task, TaskRec>
    reads ts
  {
    map t | t in ts :: t.Rec()
  }

  ghost function SubRecs(ss: set<Subtask>): map<Subtask, SubRec>
    reads ss
  {
    map s | s in ss :: s.Rec()
  }

  ghost function Handles(h: RepTables.RepTable<Subtask>): map<nat, Subtask>
    reads h
  {
    if h.Valid() then h.Live() else map[]
  }

  ghost function Snap(f: Forest): World
    reads f.tasks, f.subs, f.handles
  {
    World(TaskRecs(f.tasks), SubRecs(f.subs), Handles(f.handles))
  }

  ghost predicate Good(f: Forest)
    reads f.tasks, f.subs, f.handles
  {
    f.handles.Valid() && Wf(Snap(f))
  }

  lemma TaskAt(f: Forest, t: Task)
    requires Good(f) && t in f.tasks
    ensures Wf(Snap(f)) && t in Snap(f).tasks && Snap(f).tasks[t] == t.Rec() && Snap(f).tasks.Keys == f.tasks
    ensures var s := t.parentSubtask;
            s != null ==>
              && s in f.subs && s in Snap(f).subs && Snap(f).subs[s] == s.Rec()
              && s.parentTask in f.tasks && s.parentTask.depth < t.depth
  {
  }

  lemma StillGood(f: Forest)
    requires f.handles.Valid() && Wf(Snap(f))
    ensures Good(f)
  {
  }

  lemma SubAt(f: Forest, s: Subtask)
    requires Good(f) && s in f.subs
    ensures Wf(Snap(f)) && s in Snap(f).subs && Snap(f).subs[s] == s.Rec()
    ensures s.parentTask in f.tasks && s.parentTask in Snap(f).tasks
            && Snap(f).tasks[s.parentTask] == s.parentTask.Rec()
    ensures Snap(f).tasks.Keys == f.tasks && f.handles.Valid() && Snap(f).live == f.handles.Live()
  {
  }

  class Task {
    const parentSubtask: Subtask?
    /** Distance from the root of the forest. */
    ghost const depth: nat
    var state: TaskState
    var rejected: bool
    var cancelRequested: bool
    var cancelled: bool
    var onResolveHandlers: seq<nat>
    var subtasks: seq<Subtask>
    ghost var fired: seq<nat>

    ghost function Rec(): TaskRec
      reads this
    {
      TaskRec(state, rejected, cancelRequested, cancelled, onResolveHandlers, subtasks, fired)
    }

    constructor (parentSubtask: Subtask?, ghost depth: nat, handler: nat)
      ensures this.parentSubtask == parentSubtask && this.depth == depth && Rec() == NewTaskRec(handler)
    {
      this.parentSubtask, this.depth := parentSubtask, depth;
      state, rejected, cancelRequested, cancelled := INITIAL, false, false, false;
      onResolveHandlers, subtasks, fired := [handler], [], [];
    }

    /** The first part of `onResolve`: each handler registered so far runs, once. */
    method RunHandlers()
      modifies this`onResolveHandlers, this`fired
      ensures Rec() == FiredRec(old(Rec())) && AllRan(old(Rec()), Rec())
    {
      var handlers := onResolveHandlers;
      onResolveHandlers := [];
      var i := 0;
      while i < |handlers|
        invariant 0 <= i <= |handlers| && onResolveHandlers == []
        invariant fired == old(fired) + handlers[..i]
      {
        fired := fired + [handlers[i]];
        i := i + 1;
      }
      assert handlers[..i] == handlers;
    }

    method RegisterOnResolveHandler(handler: nat, ghost f: Forest)
      requires Good(f) && this in f.tasks && handler !in fired + onResolveHandlers
      modifies this`onResolveHandlers
      ensures Good(f) && Snap(f) == AfterRegister(old(Snap(f)), this, handler)
      ensures onResolveHandlers == old(onResolveHandlers) + [handler] && fired == old(fired)
    {
      hide Wf, RepTables.RepTable.Valid, RepTables.RepTable.Live;
      ghost var w := Snap(f);
      RegisterWf(w, this, handler);
      onResolveHandlers := onResolveHandlers + [handler];
      assert Rec() == RegisteredRec(w.tasks[this], handler);
      assert TaskRecs(f.tasks) == w.tasks[this := RegisteredRec(w.tasks[this], handler)];
    }

    method DeliverPendingCancel(cancellable: bool) returns (delivered: bool)
      modifies this`state
      ensures delivered == (cancellable && old(state) == CANCEL_PENDING)
      ensures state == if delivered then CANCEL_DELIVERED else old(state)
    {
      if cancellable && state == CANCEL_PENDING {
        state := CANCEL_DELIVERED;
        return true;
      }
      return false;
    }

    method RequestCancellation()
      modifies this`state, this`cancelRequested
      ensures Rec() == AskedRec(old(Rec()))
      ensures old(state) != RESOLVED ==> cancelRequested
      ensures state == if old(state) == INITIAL && !old(cancelRequested) then CANCEL_PENDING else old(state)
    {
      if state == RESOLVED || cancelRequested {
        return;
      }
      cancelRequested := true;
      if state == INITIAL {
        state := CANCEL_PENDING;
      }
    }

    /** `requestCancellation` on a task of the forest that backs a subtask asked to cancel. */
    method Ask(ghost f: Forest)
      requires Good(f) && this in f.tasks && Wf(SetTask(Snap(f), this, AskedRec(Rec())))
      modifies this`state, this`cancelRequested
      ensures Good(f) && Snap(f) == SetTask(old(Snap(f)), this, AskedRec(old(Rec())))
    {
      hide Wf, RepTables.RepTable.Valid, RepTables.RepTable.Live;
      ghost var w := Snap(f);
      RequestCancellation();
      assert TaskRecs(f.tasks) == w.tasks[this := AskedRec(w.tasks[this])];
    }

    method RemoveSubtask(s: Subtask, ghost ts: set<Task>) returns (r: Result<(), StateError>)
      requires this in ts
      modifies this`subtasks
      ensures r == if old(subtasks) == [] then Err(NoCurrentSubtask) else Ok(())
      ensures TaskRecs(ts) == old(TaskRecs(ts))[this := WithoutSub(old(Rec()), s)]
    {
      if |subtasks| == 0 {
        return Err(NoCurrentSubtask);
      }
      subtasks := Without(subtasks, s);
      assert Rec() == WithoutSub(old(Rec()), s);
      return Ok(());
    }

    method GetLatestSubtask() returns (s: Subtask?)
      ensures s == if subtasks == [] then null else subtasks[|subtasks| - 1]
    {
      if |subtasks| == 0 {
        return null;
      }
      return subtasks[|subtasks| - 1];
    }

    method FireHandlers(ghost f: Forest)
      requires Good(f) && this in f.tasks
      modifies this`onResolveHandlers, this`fired
      ensures Good(f) && Snap(f) == SetTask(old(Snap(f)), this, FiredRec(old(Rec())))
    {
      hide Wf, RepTables.RepTable.Valid, RepTables.RepTable.Live;
      ghost var w := Snap(f);
      FiredWf(w, this);
      RunHandlers();
      assert TaskRecs(f.tasks) == w.tasks[this := FiredRec(w.tasks[this])];
    }

    /** The task's own part of a settlement: its state is `RESOLVED`. */
    method MarkResolved(ghost f: Forest)
      requires Good(f) && this in f.tasks
      modifies this`state
      ensures Good(f) && Snap(f) == Finish(old(Snap(f)), this)
    {
      hide Wf, RepTables.RepTable.Valid, RepTables.RepTable.Live;
      ghost var w := Snap(f);
      FinishWf(w, this);
      state := RESOLVED;
      assert Rec() == w.tasks[this].(state := RESOLVED);
      assert TaskRecs(f.tasks) == Finish(w, this).tasks;
    }

    method MarkCancelled(ghost f: Forest)
      requires Good(f) && this in f.tasks
      modifies this`cancelled
      ensures Good(f) && Snap(f) == Acknowledge(old(Snap(f)), this)
    {
      hide Wf, RepTables.RepTable.Valid, RepTables.RepTable.Live;
      ghost var w := Snap(f);
      CancelledWf(w, this);
      cancelled := true;
      assert Rec() == w.tasks[this].(cancelled := true);
      assert TaskRecs(f.tasks) == Acknowledge(w, this).tasks;
    }

    /** The first part of `reject`: the cancellation counts as requested and delivered. */
    method MarkRejected(ghost f: Forest)
      requires Good(f) && this in f.tasks
      modifies this`rejected, this`cancelRequested, this`state
      ensures Good(f) && Snap(f) == SetTask(old(Snap(f)), this, BeginReject(old(Rec())))
    {
      hide Wf, RepTables.RepTable.Valid, RepTables.RepTable.Live;
      ghost var w := Snap(f);
      BeginRejectWf(w, this);
      rejected := true;
      cancelRequested := true;
      state := CANCEL_PENDING;
      var _ := DeliverPendingCancel(true);
      assert Rec() == BeginReject(w.tasks[this]);
      assert TaskRecs(f.tasks) == w.tasks[this := BeginReject(w.tasks[this])];
    }

    /**
     `onResolve`: the handlers run, then the parent subtask receives the value or, for
     a rejected task, the rejection.  A parent subtask already settled receives nothing.
     */
    method OnResolve(v: JsValue, handles: RepTables.RepTable<Subtask>, ghost f: Forest)
      returns (r: Result<(), StateError>)
      requires Good(f) && this in f.tasks && handles == f.handles
      modifies f.subs, f.tasks, f.handles
      ensures r == Ok(()) && Good(f)
      ensures Snap(f) == AfterOnResolve(old(Snap(f)), this, v)
      ensures AllRan(old(Rec()), Rec()) && state == old(state)
      decreases depth, 1
    {
      hide Good, Snap, Wf, AfterOnResolve, AfterRejectSub, AfterResolve;
      ghost var w := Snap(f);
      TaskAt(f, this);
      OnResolveUnfold(w, this, v);
      OnResolveOwn(w, this, v);
      FiredAll(Rec());
      FireHandlers(f);
      TaskAt(f, this);
      if rejected {
        if parentSubtask != null {
          r := parentSubtask.Reject(handles, f);
        } else {
          r := Ok(());
        }
      } else if parentSubtask != null && !Terminal(parentSubtask.state) {
        ResolvedIffTerminal(Snap(f), parentSubtask);
        r := parentSubtask.OnResolve(v, handles, f);
      } else {
        r := Ok(());
      }
      TaskAt(f, this);
    }

    /**
     `resolve`: throws when the task is resolved already, and changes nothing; and for
     more than one result, after the task has become resolved and before it delivers.
     */
    method Resolve(results: seq<JsValue>, handles: RepTables.RepTable<Subtask>, ghost f: Forest)
      returns (r: Result<(), StateError>)
      requires Good(f) && this in f.tasks && handles == f.handles
      modifies f.subs, f.tasks, f.handles
      ensures Good(f)
      ensures r == if old(state) == RESOLVED then Err(AlreadyResolved)
                   else if |results| > 1 then Err(UnexpectedResults) else Ok(())
      ensures Snap(f) == if r.Ok? then AfterTaskResolve(old(Snap(f)), this, ResultOf(results))
                         else if r == Err(UnexpectedResults) then Finish(old(Snap(f)), this) else old(Snap(f))
      ensures r.Ok? ==> AllRan(old(Rec()), Rec()) && state == RESOLVED
      decreases depth, 2
    {
      hide Good, Snap, Wf, AfterOnResolve, AfterTaskResolve, Finish, AllRan;
      ghost var w := Snap(f);
      TaskAt(f, this);
      if state == RESOLVED {
        return Err(AlreadyResolved);
      }
      ResolveUnfold(Snap(f), this, ResultOf(results));
      MarkResolved(f);
      if |results| > 1 {
        return Err(UnexpectedResults);
      }
      SettledOwn(w, this, ResultOf(results));
      r := OnResolve(if |results| == 0 then Undefined else results[0], handles, f);
      TaskAt(f, this);
    }

    /** `cancel`: a delivered cancellation, or a rejection, settles the task. */
    method Cancel(v: JsValue, handles: RepTables.RepTable<Subtask>, ghost f: Forest) returns (r: Result<(), StateError>)
      requires Good(f) && this in f.tasks && handles == f.handles
      modifies f.subs, f.tasks, f.handles
      ensures Good(f)
      ensures r == if old(state) == CANCEL_DELIVERED then Ok(()) else Err(InvalidTaskState)
      ensures Snap(f) == if r.Err? then old(Snap(f)) else AfterCancel(old(Snap(f)), this, v)
      ensures r.Ok? ==> AllRan(old(Rec()), Rec()) && state == RESOLVED && cancelled
      decreases depth, 2
    {
      hide Good, Snap, Wf, AfterOnResolve, AfterCancel, Finish, Acknowledge, AllRan;
      ghost var w := Snap(f);
      TaskAt(f, this);
      SettledOwn(w, this, v);
      if state != CANCEL_DELIVERED {
        return Err(InvalidTaskState);
      }
      CancelUnfold(Snap(f), this, v);
      MarkCancelled(f);
      r := OnResolve(v, handles, f);
      MarkResolved(f);
      TaskAt(f, this);
    }

    /** `reject`: settles this task and the tasks that wait on it; a settled task is left alone. */
    method Reject(v: JsValue, handles: RepTables.RepTable<Subtask>, ghost f: Forest) returns (r: Result<(), StateError>)
      requires Good(f) && this in f.tasks && handles == f.handles
      modifies f.subs, f.tasks, f.handles
      ensures r == Ok(()) && Good(f)
      ensures Snap(f) == AfterReject(old(Snap(f)), this)
      ensures if old(state) == RESOLVED || old(rejected) then Rec() == old(Rec()) else EndsRejected(old(Rec()), Rec())
      decreases depth, 3
    {
      hide Good, Snap, Wf, AfterCancel, AfterReject, EndsRejected, AllRan;
      TaskAt(f, this);
      RejectUnfolded(Snap(f), this, v);
      RejectedOwn(Snap(f), this);
      if state == RESOLVED || rejected {
        return Ok(());
      }
      MarkRejected(f);
      TaskAt(f, this);
      r := Cancel(v, handles, f);
      TaskAt(f, this);
    }

    method PushSubtask(s: Subtask, ghost ts: set<Task>)
      requires this in ts
      modifies this`subtasks
      ensures subtasks == old(subtasks) + [s]
      ensures TaskRecs(ts) == old(TaskRecs(ts))[this := old(Rec()).(subtasks := old(subtasks) + [s])]
    {
      subtasks := subtasks + [s];
      assert Rec() == old(Rec()).(subtasks := old(subtasks) + [s]);
    }

    /** `createSubtask`: the new subtask is the last of this task's list and holds a fresh handle. */
    method CreateSubtask(isAsync: bool, handles: RepTables.RepTable<Subtask>, ghost f: Forest) returns (s: Subtask)
      requires Good(f) && this in f.tasks && handles == f.handles
      modifies this`subtasks, handles
      ensures fresh(s) && s.parentTask == this && s.isAsync == isAsync && s.rep > 0 && subtasks == old(subtasks) + [s]
      ensures handles.Valid() && s !in old(Snap(f)).subs && s.rep !in old(Snap(f)).live
      ensures Snap(f.(subs := f.subs + {s})) == Enlist(old(Snap(f)), s, s.rep)
    {
      hide Wf, RepTables.RepTable.Valid, RepTables.RepTable.Live;
      ghost var w := Snap(f);
      s := new Subtask(this, isAsync);
      assert s !in f.subs;
      PushSubtask(s, f.tasks);
      ghost var listed := TaskRecs(f.tasks);
      s.TakeHandle(handles, f.subs);
      assert TaskRecs(f.tasks) == listed;
    }
  }

  class Subtask {
    const parentTask: Task
    const isAsync: bool
    var rep: nat
    var childTask: Task?
    var state: SubtaskState
    var cancelRequested: bool
    var resolved: bool
    var result: Option<JsValue>
    /** `lenders === null`: the resolution has been delivered to the caller. */
    var delivered: bool
    var dropped: bool
    ghost var history: seq<SubtaskState>

    ghost function Rec(): SubRec
      reads this
    {
      SubRec(rep, childTask, state, cancelRequested, resolved, result, delivered, dropped, history)
    }

    constructor (parentTask: Task, isAsync: bool)
      ensures this.parentTask == parentTask && this.isAsync == isAsync && Rec() == NewSubRec(0)
    {
      this.parentTask, this.isAsync := parentTask, isAsync;
      rep, childTask, state, cancelRequested, resolved := 0, null, STARTING, false, false;
      result, delivered, dropped, history := None, false, false, [STARTING];
    }

    /** The second part of `createSubtask`: the new subtask takes a handle that is not in use. */
    method TakeHandle(handles: RepTables.RepTable<Subtask>, ghost ss: set<Subtask>)
      requires handles.Valid() && this !in ss && Rec() == NewSubRec(0)
      modifies this`rep, handles
      ensures handles.Valid() && Handles(handles) == old(Handles(handles))[rep := this]
      ensures rep > 0 && rep !in old(Handles(handles))
      ensures SubRecs(ss + {this}) == old(SubRecs(ss))[this := NewSubRec(rep)]
    {
      RepTables.SlotsOfPartitioned(handles.data, handles.free);
      RepTables.InsertFresh(handles.Abs(), this);
      hide RepTables.Chained, RepTables.LiveOf, RepTables.AfterInsert, RepTables.InsertRep, RepTables.Partitioned;
      ghost var recs := SubRecs(ss);
      var idx := handles.Insert(this);
      if idx.Ok? {
        rep := idx.value;
      }
      assert SubRecs(ss) == recs;
      assert Rec() == NewSubRec(rep);
    }

    method SetResult(v: JsValue) returns (r: Result<(), StateError>)
      modifies this`result
      ensures r.Err? <==> old(result).Some?
      ensures result == if r.Err? then old(result) else Some(v)
    {
      if result.Some? {
        return Err(ResultAlreadySet);
      }
      result := Some(v);
      return Ok(());
    }

    method DeliverResolve() returns (ok: bool)
      modifies this`delivered
      ensures ok <==> !old(delivered) && Terminal(state)
      ensures delivered == (ok || old(delivered))
    {
      if delivered || !Terminal(state) {
        return false;
      }
      delivered := true;
      return true;
    }

    method Drop() returns (ok: bool)
      modifies this`dropped
      ensures ok == delivered && dropped == (old(dropped) || ok)
    {
      if !delivered {
        return false;
      }
      dropped := true;
      return true;
    }

    /** The end of `onResolve` for a synchronous call: deliver, free the handle, drop. */
    method ReleaseToCaller(handles: RepTables.RepTable<Subtask>, ghost ss: set<Subtask>)
      requires this in ss && handles.Valid() && Terminal(state) && !delivered && !dropped
      requires rep in handles.Live() && handles.Live()[rep] == this
      modifies this`delivered, this`dropped, handles
      ensures handles.Valid() && handles.Live() == old(handles.Live()) - {rep}
      ensures SubRecs(ss) == old(SubRecs(ss))[this := DroppedRec(old(Rec()))]
    {
      hide RepTables.Chained, RepTables.LiveOf;
      handles.CellKinds(rep);
      var _ := DeliverResolve();
      if rep != 0 {
        var removed := handles.Remove(rep);
        if removed == Ok(this) {
          var _ := Drop();
        }
      }
      assert Rec() == DroppedRec(old(Rec()));
    }

    /** The second part of `onResolve`: the parent forgets the subtask, a waiting caller frees it. */
    method LeaveParent(handles: RepTables.RepTable<Subtask>, ghost f: Forest) returns (r: Result<(), StateError>)
      requires this in f.subs && parentTask in f.tasks && handles == f.handles && handles.Valid()
      requires this in parentTask.subtasks && Terminal(state) && !delivered && !dropped
      requires rep in handles.Live() && handles.Live()[rep] == this
      modifies this`delivered, this`dropped, parentTask`subtasks, handles
      ensures r == Ok(()) && handles.Valid()
      ensures Snap(f) == LeftParent(old(Snap(f)), this)
    {
      hide RepTables.RepTable.Valid, RepTables.RepTable.Live;
      ghost var subs := SubRecs(f.subs);
      r := parentTask.RemoveSubtask(this, f.tasks);
      if r.Err? {
        return;
      }
      ghost var listed := TaskRecs(f.tasks);
      assert SubRecs(f.subs) == subs;
      if !isAsync {
        ReleaseToCaller(handles, f.subs);
        assert TaskRecs(f.tasks) == listed;
      }
    }

    /** The first part of `onResolve`: the next state and the result, or an error. */
    method Conclude(v: JsValue, ghost ss: set<Subtask>) returns (r: Result<(), StateError>)
      requires this in ss
      requires !resolved ==> result == None
      requires resolved <==> Terminal(state)
      modifies this`state, this`history, this`result, this`resolved
      ensures r == if old(resolved) then Err(AlreadyResolved)
                   else if ResolvedState(old(Rec()), v).None? then Err(NotStarted) else Ok(())
      ensures r.Ok? ==> Terminal(state)
      ensures r.Err? ==> SubRecs(ss) == old(SubRecs(ss))
      ensures r.Ok? ==> SubRecs(ss) == old(SubRecs(ss))[this := ResolvedRec(old(Rec()), v)]
    {
      if resolved {
        return Err(AlreadyResolved);
      }
      if v == Nothing && cancelRequested {
        if state == STARTING {
          state := CANCELLED_BEFORE_STARTED;
        } else {
          if state != STARTED {
            return Err(NotStarted);
          }
          state := CANCELLED_BEFORE_RETURNED;
        }
      } else {
        if state != STARTED {
          return Err(NotStarted);
        }
        state := RETURNED;
      }
      history := history + [state];
      var stored := SetResult(v);
      if stored.Err? {
        return stored;
      }
      resolved := true;
      assert Rec() == ResolvedRec(old(Rec()), v);
      return Ok(());
    }

    method ConcludeIn(v: JsValue, ghost f: Forest) returns (r: Result<(), StateError>)
      requires this in f.subs
      requires !resolved ==> result == None
      requires resolved <==> Terminal(state)
      modifies this`state, this`history, this`result, this`resolved
      ensures r == if old(resolved) then Err(AlreadyResolved)
                   else if ResolvedState(old(Rec()), v).None? then Err(NotStarted) else Ok(())
      ensures r.Ok? ==> Terminal(state)
      ensures Snap(f) == if r.Err? then old(Snap(f)) else Concluded(old(Snap(f)), this, v)
    {
      hide ResolvedState, ResolvedRec, RepTables.RepTable.Valid, RepTables.RepTable.Live;
      ghost var w := Snap(f);
      r := Conclude(v, f.subs);
      assert TaskRecs(f.tasks) == w.tasks;
    }

    /**
     `onResolve`: succeeds exactly on an unresolved subtask that has started, or was
     cancelled before.  The other errors of the body are not among the outcomes.
     */
    method OnResolve(v: JsValue, handles: RepTables.RepTable<Subtask>, ghost f: Forest)
      returns (r: Result<(), StateError>)
      requires Good(f) && this in f.subs && handles == f.handles
      modifies this, parentTask, handles
      ensures Good(f)
      ensures r == if old(resolved) then Err(AlreadyResolved)
                   else if ResolvedState(old(Rec()), v).None? then Err(NotStarted) else Ok(())
      ensures Snap(f) == if r.Ok? then AfterResolve(old(Snap(f)), this, v) else old(Snap(f))
      ensures r.Ok? ==> EndsWith(old(Rec()), Rec(), v) && delivered == !isAsync
      ensures r.Ok? <==> !old(resolved)
                         && (old(state) == STARTED || (old(state) == STARTING && v == Nothing && old(cancelRequested)))
    {
      AcceptedIff(Rec(), v);
      hide Good, Snap, Wf, AfterResolve, LeftParent, EndsWith, ResolvedState;
      hide RepTables.RepTable.Valid, RepTables.RepTable.Live;
      ghost var w := Snap(f);
      SubAt(f, this);
      ResolvedIffTerminal(w, this);
      if ResolvedState(w.subs[this], v).Some? {
        ResolveWf(w, this, v);
        ResolveAssembled(w, this, v);
        ResolveEffect(w, this, v);
      }
      r := ConcludeIn(v, f);
      if r.Err? {
        StillGood(f);
        return;
      }
      r := LeaveParent(handles, f);
      StillGood(f);
      SubAt(f, this);
    }

    /** `reject`, up to the subtask's own part. */
    method MarkRejected(ghost ss: set<Subtask>) returns (r: Result<(), StateError>)
      requires this in ss
      modifies this`state, this`history, this`resolved
      ensures r == if Terminal(old(state)) then Err(CompletedSubtask) else Ok(())
      ensures SubRecs(ss) == if r.Err? then old(SubRecs(ss)) else old(SubRecs(ss))[this := RejectedSubRec(old(Rec()))]
    {
      ghost var before := Rec();
      if state == STARTING {
        state := CANCELLED_BEFORE_STARTED;
      } else if state == STARTED {
        state := CANCELLED_BEFORE_RETURNED;
      } else {
        return Err(CompletedSubtask);
      }
      history := history + [state];
      resolved := true;
      assert Rec() == RejectedSubRec(before);
      return Ok(());
    }

    /** The part of `reject` below the parent task. */
    method Withdraw(ghost f: Forest) returns (r: Result<(), StateError>)
      requires Good(f) && this in f.subs && parentTask in f.tasks && Withdrawable(Snap(f), this)
      modifies this`state, this`history, this`resolved, parentTask`subtasks
      ensures r == Ok(()) && Good(f)
      ensures Snap(f) == Retire(old(Snap(f)), this, RejectedSubRec(old(Rec())))
    {
      hide Wf, RepTables.RepTable.Valid, RepTables.RepTable.Live;
      ghost var w := Snap(f);
      r := MarkRejected(f.subs);
      assert TaskRecs(f.tasks) == w.tasks;
      if r.Err? {
        return;
      }
      r := parentTask.RemoveSubtask(this, f.tasks);
    }

    /** `reject`: the subtask is cancelled, and the task that waits on it rejected. */
    method Reject(handles: RepTables.RepTable<Subtask>, ghost f: Forest) returns (r: Result<(), StateError>)
      requires Good(f) && this in f.subs && handles == f.handles
      modifies f.subs, f.tasks, f.handles
      ensures r == Ok(()) && Good(f)
      ensures Snap(f) == AfterRejectSub(old(Snap(f)), this)
      ensures if Terminal(old(state)) then Rec() == old(Rec()) else EndsCancelled(old(Rec()), Rec())
      decreases parentTask.depth, 4
    {
      hide Good, Snap, Wf, AfterReject, AfterRejectSub, Retire, EndsCancelled;
      SubAt(f, this);
      RejectSubEffect(Snap(f), this);
      RejectSubUnfold(Snap(f), this);
      if resolved {
        return Ok(());
      }
      r := Withdraw(f);
      if r.Err? {
        return;
      }
      r := parentTask.Reject(Nothing, handles, f);
      SubAt(f, this);
    }

    /** `onStart`, on its single call, when the subtask is created. */
    method OnStart(ghost f: Forest)
      requires Good(f) && this in f.subs && state == STARTING
      modifies this`state, this`history
      ensures Good(f) && Snap(f) == AfterStart(old(Snap(f)), this)
    {
      hide Wf, AfterStart, RepTables.RepTable.Valid, RepTables.RepTable.Live;
      ghost var w := Snap(f);
      StartUnfold(w, this);
      state := STARTED;
      history := history + [STARTED];
      assert Rec() == StartedRec(w.subs[this]);
      assert SubRecs(f.subs) == w.subs[this := StartedRec(w.subs[this])];
    }

    /** `setChildTask`: the check that the parent is not the child never fails in a forest. */
    method SetChildTask(t: Task, ghost f: Forest) returns (r: Result<(), StateError>)
      requires Good(f) && this in f.subs && t in f.tasks && t.parentSubtask == this
      modifies this`childTask
      ensures Good(f)
      ensures r == if old(childTask) != null then Err(ChildAlreadySet) else Ok(())
      ensures Snap(f) == if r.Err? then old(Snap(f)) else WithChild(old(Snap(f)), this, t)
    {
      hide Good, Snap, Wf, WithChild;
      if childTask != null {
        return Err(ChildAlreadySet);
      }
      SubAt(f, this);
      SetChildWf(Snap(f), this, t);
      if parentTask == t {
        return Err(ParentAsChild);
      }
      StoreChild(t, f);
      StillGood(f);
      r := Ok(());
    }

    method StoreChild(t: Task, ghost f: Forest)
      requires this in f.subs
      modifies this`childTask
      ensures Snap(f) == WithChild(old(Snap(f)), this, t)
    {
      hide Handles;
      ghost var w, r := Snap(f), Rec();
      childTask := t;
      assert Rec() == r.(childTask := t);
      assert SubRecs(f.subs) == w.subs[this := r.(childTask := t)];
      assert TaskRecs(f.tasks) == w.tasks;
    }

    method MarkCancelRequested(ghost f: Forest)
      requires Good(f) && this in f.subs
      modifies this`cancelRequested
      ensures Good(f) && Snap(f) == MarkCancelled(old(Snap(f)), this)
    {
      hide Wf, RepTables.RepTable.Valid, RepTables.RepTable.Live;
      ghost var w := Snap(f);
      MarkCancelledWf(w, this);
      cancelRequested := true;
      assert Rec() == w.subs[this].(cancelRequested := true);
      assert SubRecs(f.subs) == MarkCancelled(w, this).subs;
    }

    /** `requestCancellation`: a second request throws and changes nothing. */
    method RequestCancellation(handles: RepTables.RepTable<Subtask>, ghost f: Forest)
      returns (r: Result<(), StateError>)
      requires Good(f) && this in f.subs && handles == f.handles
      modifies f.subs, f.tasks, f.handles
      ensures Good(f)
      ensures r == if old(cancelRequested) then Err(CancellationRepeated) else Ok(())
      ensures Snap(f) == if r.Err? then old(Snap(f)) else AfterRequestCancel(old(Snap(f)), this)
    {
      hide Good, Snap, Wf, AfterRequestCancel, AfterResolve;
      SubAt(f, this);
      if cancelRequested {
        return Err(CancellationRepeated);
      }
      RequestUnfold(Snap(f), this);
      MarkCancelRequested(f);
      SubAt(f, this);
      if resolved {
        return Ok(());
      }
      if childTask != null {
        TaskAt(f, childTask);
        childTask.Ask(f);
        return Ok(());
      }
      r := OnResolve(Nothing, handles, f);
    }
  }
}
