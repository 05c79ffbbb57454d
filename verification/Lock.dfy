/**
 The exclusive lock of a component instance (`ComponentAsyncState`): an owner, a
 FIFO queue of waiters, and a hand-off deferred to a microtask.

 `Step` is one atomic piece of JavaScript: a call, the part of a release before or
 after its handlers run, or the hand-off microtask.  The results hold for every
 sequence of steps, whatever the release handlers do to the lock.
 */
module Locks {
  import opened Wrappers

  type TaskId = nat

  /**
   `releasing` counts the releases whose handlers are running, that is, which have
   cleared the holder but not yet scheduled the hand-off.
   */
  datatype Lock = Lock(holder: Option<TaskId>, waiters: seq<TaskId>, scheduled: bool, releasing: nat)

  const UNLOCKED := Lock(None, [], false, 0)

  datatype Event =
    | ExclusiveLock(t: TaskId)
    | Acquire(t: TaskId)
    | BeginRelease(t: TaskId)
    | EndRelease
    | Handoff

  function ScheduleHandoff(l: Lock): Lock {
    if l.scheduled || l.waiters == [] then l else l.(scheduled := true)
  }

  function Step(l: Lock, e: Event): Lock {
    match e
    case ExclusiveLock(t) => if l.holder == None then l.(holder := Some(t)) else l
    case Acquire(t) =>
      if l.holder == None then l.(holder := Some(t))
      else if l.holder == Some(t) then l
      else l.(waiters := l.waiters + [t])
    case BeginRelease(t) =>
      if l.holder != Some(t) then l else l.(holder := None, releasing := l.releasing + 1)
    case EndRelease =>
      if l.releasing == 0 then l else ScheduleHandoff(l.(releasing := l.releasing - 1))
    case Handoff =>
      if !l.scheduled then l
      else
        var l' := l.(scheduled := false);
        if l.holder != None then ScheduleHandoff(l')
        else if l.waiters == [] then l'
        else l'.(holder := Some(l.waiters[0]), waiters := l.waiters[1..])
  }

  /** The task that learns, in this step, that it owns the lock. */
  function Granted(l: Lock, e: Event): Option<TaskId> {
    match e
    case ExclusiveLock(t) => if l.holder == None then Some(t) else None
    case Acquire(t) => if l.holder == None then Some(t) else None
    case Handoff => if l.scheduled && l.holder == None && l.waiters != [] then Some(l.waiters[0]) else None
    case _ => None
  }

  function Released(l: Lock, e: Event): Option<TaskId> {
    if e.BeginRelease? && l.holder == Some(e.t) then Some(e.t) else None
  }

  function Run(l: Lock, es: seq<Event>): Lock {
    if es == [] then l else Step(Run(l, es[..|es| - 1]), es[|es| - 1])
  }

  /** Tasks granted the lock in the run that have not released it since. */
  function Owning(l: Lock, es: seq<Event>): set<TaskId> {
    if es == [] then {}
    else
      var before, l', e := Owning(l, es[..|es| - 1]), Run(l, es[..|es| - 1]), es[|es| - 1];
      match (Granted(l', e), Released(l', e))
      case (Some(t), _) => before + {t}
      case (None, Some(t)) => before - {t}
      case (None, None) => before
  }

  /** Tasks granted by hand-offs in the run, and tasks queued in it, in order. */
  function HandedOff(l: Lock, es: seq<Event>): seq<TaskId> {
    if es == [] then []
    else
      HandedOff(l, es[..|es| - 1]) + GrantOf(Run(l, es[..|es| - 1]), es[|es| - 1])
  }

  function Queued(l: Lock, es: seq<Event>): seq<TaskId> {
    if es == [] then []
    else
      Queued(l, es[..|es| - 1]) + QueuedBy(Run(l, es[..|es| - 1]), es[|es| - 1])
  }

  /** What every reachable state satisfies. */
  predicate Inv(l: Lock) {
    && (l.waiters != [] && l.holder == None ==> l.scheduled || l.releasing > 0)
    && (l.scheduled ==> l.waiters != [])
  }

  function Holders(l: Lock): set<TaskId> {
    if l.holder == None then {} else {l.holder.value}
  }

  /**
   In every run from the unlocked state the tasks owning the lock are exactly the
   recorded holder; a queue behind a free lock always has its hand-off scheduled or
   about to be; and a scheduled hand-off always finds a waiter.
   */
  lemma {:induction false} Safety(es: seq<Event>)
    ensures Inv(Run(UNLOCKED, es))
    ensures Owning(UNLOCKED, es) == Holders(Run(UNLOCKED, es))
  {
    if es != [] {
      Safety(es[..|es| - 1]);
    }
  }

  function GrantOf(l: Lock, e: Event): seq<TaskId> {
    if e.Handoff? && Granted(l, e).Some? then [Granted(l, e).value] else []
  }

  function QueuedBy(l: Lock, e: Event): seq<TaskId> {
    if e.Acquire? && l.holder != None && l.holder != Some(e.t) then [e.t] else []
  }

  lemma OneStep(l: Lock, e: Event)
    ensures GrantOf(l, e) + Step(l, e).waiters == l.waiters + QueuedBy(l, e)
  {
    assert l.waiters != [] ==> l.waiters == [l.waiters[0]] + l.waiters[1..];
  }

  lemma LastEvent(l: Lock, es: seq<Event>)
    requires es != []
    ensures var es', e, l' := es[..|es| - 1], es[|es| - 1], Run(l, es[..|es| - 1]);
            && HandedOff(l, es) == HandedOff(l, es') + GrantOf(l', e)
            && Queued(l, es) == Queued(l, es') + QueuedBy(l', e)
            && Run(l, es) == Step(l', e)
  {
    hide GrantOf, QueuedBy, Step;
  }

  lemma Reassociate(h: seq<TaskId>, g: seq<TaskId>, w': seq<TaskId>, w: seq<TaskId>, a: seq<TaskId>,
                    w0: seq<TaskId>, q: seq<TaskId>)
    requires h + w == w0 + q && g + w' == w + a
    ensures (h + g) + w' == w0 + (q + a)
  {
    assert (h + g) + w' == h + (g + w') == (h + w) + a == w0 + (q + a);
  }

  /** Hand-offs serve the queue first in, first out, and lose no one, in every run. */
  lemma {:induction false} FirstInFirstOut(l: Lock, es: seq<Event>)
    ensures HandedOff(l, es) + Run(l, es).waiters == l.waiters + Queued(l, es)
  {
    if es != [] {
      var es', e := es[..|es| - 1], es[|es| - 1];
      FirstInFirstOut(l, es');
      LastEvent(l, es);
      hide HandedOff, Queued, Run, Step, GrantOf, QueuedBy;
      var l', h, q := Run(l, es'), HandedOff(l, es'), Queued(l, es');
      OneStep(l', e);
      Reassociate(h, GrantOf(l', e), Step(l', e).waiters, l'.waiters, QueuedBy(l', e), l.waiters, q);
    }
  }

  /**
   A waiter loses one position per hand-off grant: behind `i` others it stands at
   `i - k` after `k` grants, and grant number `i` is its own.
   */
  lemma WaitersTurn(l: Lock, es: seq<Event>, i: nat)
    requires i < |l.waiters|
    ensures var k := |HandedOff(l, es)|;
            if k <= i then i - k < |Run(l, es).waiters| && Run(l, es).waiters[i - k] == l.waiters[i]
            else HandedOff(l, es)[i] == l.waiters[i]
  {
    FirstInFirstOut(l, es);
    var handed, rest := HandedOff(l, es), Run(l, es).waiters;
    assert (handed + rest)[i] == l.waiters[i];
  }

  /** With no release under way, the hand-off after a release goes to the head of the queue. */
  lemma HandoffServesHead(es: seq<Event>)
    requires var l := Run(UNLOCKED, es); l.releasing == 0 && l.holder == None && l.waiters != []
    ensures Granted(Run(UNLOCKED, es), Handoff) == Some(Run(UNLOCKED, es).waiters[0])
  {
    Safety(es);
  }

  /**
   An acquisition takes a free lock at once, puts the task last in the queue of a lock
   held by another, and is refused to the holder itself: no request is lost.
   */
  lemma AcquireEffect(l: Lock, t: TaskId)
    ensures var l' := Step(l, Acquire(t));
            && (l.holder == None ==> l' == l.(holder := Some(t)) && Granted(l, Acquire(t)) == Some(t))
            && (l.holder == Some(t) ==> l' == l && Granted(l, Acquire(t)) == None)
            && (l.holder != None && l.holder != Some(t) ==>
                  l' == l.(waiters := l.waiters + [t]) && Granted(l, Acquire(t)) == None)
            && (l'.holder == Some(t) || t in l'.waiters)
  {
  }

  /** A synchronous entry takes a free lock and otherwise changes nothing. */
  lemma ExclusiveLockEffect(l: Lock, t: TaskId)
    ensures var l' := Step(l, ExclusiveLock(t));
            if l.holder == None then l' == l.(holder := Some(t)) && Granted(l, ExclusiveLock(t)) == Some(t)
            else l' == l && Granted(l, ExclusiveLock(t)) == None
  {
  }

  /** Releasing clears the holder; when its handlers are done a hand-off is due to a waiter. */
  lemma ReleaseEffect(l: Lock, t: TaskId)
    requires l.holder == Some(t)
    ensures Step(l, BeginRelease(t)) == l.(holder := None, releasing := l.releasing + 1)
    ensures Released(l, BeginRelease(t)) == Some(t)
    ensures l.releasing > 0 ==>
              var l' := Step(l, EndRelease);
              && l' == l.(releasing := l.releasing - 1, scheduled := l'.scheduled)
              && (l'.scheduled <==> l.scheduled || l.waiters != [])
  {
  }

  /** A scheduled hand-off grants a free lock to the first waiter, and waits for a held one. */
  lemma HandoffEffect(l: Lock)
    requires l.scheduled && l.waiters != []
    ensures l.holder == None ==>
              && Step(l, Handoff) == l.(holder := Some(l.waiters[0]), waiters := l.waiters[1..], scheduled := false)
              && Granted(l, Handoff) == Some(l.waiters[0])
    ensures l.holder != None ==> Step(l, Handoff) == l && Granted(l, Handoff) == None
  {
  }

  /** A release by a task that does not hold the lock changes nothing. */
  lemma ForeignReleaseIgnored(l: Lock, t: TaskId)
    ensures Step(l, BeginRelease(t)) == l <==> l.holder != Some(t)
  {
  }

  lemma {:induction false} RunAppend(l: Lock, es: seq<Event>, fs: seq<Event>)
    ensures Run(l, es + fs) == Run(Run(l, es), fs)
  {
    if fs == [] {
      assert es + fs == es;
    } else {
      assert (es + fs)[..|es + fs| - 1] == es + fs[..|fs| - 1];
      RunAppend(l, es, fs[..|fs| - 1]);
    }
  }

  // ----- release handlers -------------------------------------------------------------

  /**
   What a release handler does: resolve a promise, which touches nothing before the
   next microtask, or let a consumer call the component synchronously as task `t`.
   That call enters under the lock if it is free, and its own release runs `nested`.
   */
  datatype Handler = Wake | SyncCall(t: TaskId, nested: seq<Handler>)

  function HandlerTrace(l: Lock, h: Handler): seq<Event>
    decreases h, 0
  {
    match h
    case Wake => []
    case SyncCall(t, nested) =>
      var entry := if l.holder == None then [ExclusiveLock(t)] else [];
      entry + ReleaseTrace(Run(l, entry), t, nested)
  }

  function HandlersTrace(l: Lock, hs: seq<Handler>): seq<Event>
    decreases hs, 0
  {
    if hs == [] then []
    else
      var es := HandlerTrace(l, hs[0]);
      es + HandlersTrace(Run(l, es), hs[1..])
  }

  /** The steps of `exclusiveRelease(t)` when the handlers `hs` are registered. */
  function ReleaseTrace(l: Lock, t: TaskId, hs: seq<Handler>): seq<Event>
    decreases hs, 1
  {
    if l.holder != Some(t) then [BeginRelease(t)]
    else [BeginRelease(t)] + HandlersTrace(Run(l, [BeginRelease(t)]), hs) + [EndRelease]
  }

  lemma RunOne(l: Lock, e: Event)
    ensures Run(l, [e]) == Step(l, e)
  {
    assert [e][..0] == [];
  }

  /** Releases nest: the handlers leave as many under way as they found. */
  lemma {:induction false} HandlerBalanced(l: Lock, h: Handler)
    ensures Run(l, HandlerTrace(l, h)).releasing == l.releasing
    decreases h, 0
  {
    if h.SyncCall? {
      var entry := if l.holder == None then [ExclusiveLock(h.t)] else [];
      RunOne(l, ExclusiveLock(h.t));
      ReleaseBalanced(Run(l, entry), h.t, h.nested);
      RunAppend(l, entry, ReleaseTrace(Run(l, entry), h.t, h.nested));
    }
  }

  lemma {:induction false} HandlersBalanced(l: Lock, hs: seq<Handler>)
    ensures Run(l, HandlersTrace(l, hs)).releasing == l.releasing
    decreases hs, 0
  {
    if hs != [] {
      var es := HandlerTrace(l, hs[0]);
      HandlerBalanced(l, hs[0]);
      HandlersBalanced(Run(l, es), hs[1..]);
      RunAppend(l, es, HandlersTrace(Run(l, es), hs[1..]));
    }
  }

  lemma {:induction false} ReleaseBalanced(l: Lock, t: TaskId, hs: seq<Handler>)
    ensures Run(l, ReleaseTrace(l, t, hs)).releasing == l.releasing
    ensures l.holder == Some(t) ==>
              var cleared := Run(l, [BeginRelease(t)]);
              var handled := Run(cleared, HandlersTrace(cleared, hs));
              handled.releasing == l.releasing + 1 && Run(l, ReleaseTrace(l, t, hs)) == Step(handled, EndRelease)
    decreases hs, 1
  {
    RunOne(l, BeginRelease(t));
    if l.holder == Some(t) {
      var cleared := Run(l, [BeginRelease(t)]);
      var hes := HandlersTrace(cleared, hs);
      HandlersBalanced(cleared, hs);
      RunAppend(l, [BeginRelease(t)], hes);
      RunAppend(l, [BeginRelease(t)] + hes, [EndRelease]);
      RunOne(Run(l, [BeginRelease(t)] + hes), EndRelease);
    }
  }

  /** Handlers that find the lock free leave it free, with a hand-off due at most. */
  lemma {:induction false} HandlerLeavesFree(l: Lock, h: Handler)
    requires l.holder == None
    ensures var l' := Run(l, HandlerTrace(l, h)); l' == l || l' == ScheduleHandoff(l)
    decreases h, 0
  {
    match h
    case Wake =>
    case SyncCall(t, nested) =>
      RunOne(l, ExclusiveLock(t));
      var l1 := Step(l, ExclusiveLock(t));
      RunAppend(l, [ExclusiveLock(t)], ReleaseTrace(l1, t, nested));
      ReleaseFrees(l1, t, nested);
      assert l1.(holder := None) == l;
  }

  lemma {:induction false} HandlersLeaveFree(l: Lock, hs: seq<Handler>)
    requires l.holder == None
    ensures var l' := Run(l, HandlersTrace(l, hs)); l' == l || l' == ScheduleHandoff(l)
    decreases hs, 0
  {
    if hs != [] {
      var es := HandlerTrace(l, hs[0]);
      HandlerLeavesFree(l, hs[0]);
      HandlersLeaveFree(Run(l, es), hs[1..]);
      RunAppend(l, es, HandlersTrace(Run(l, es), hs[1..]));
    }
  }

  /** Whatever handlers run, the holder's release frees the lock and schedules a hand-off to a waiter. */
  lemma {:induction false} ReleaseFrees(l: Lock, t: TaskId, hs: seq<Handler>)
    requires l.holder == Some(t)
    ensures Run(l, ReleaseTrace(l, t, hs)) == ScheduleHandoff(l.(holder := None))
    decreases hs, 1
  {
    RunOne(l, BeginRelease(t));
    var cleared := Run(l, [BeginRelease(t)]);
    HandlersLeaveFree(cleared, hs);
    ReleaseBalanced(l, t, hs);
  }

  lemma ReleaseForeign(l: Lock, t: TaskId, hs: seq<Handler>)
    requires l.holder != Some(t)
    ensures Run(l, ReleaseTrace(l, t, hs)) == l
  {
    RunOne(l, BeginRelease(t));
  }

  // ----- the list of handlers ---------------------------------------------------------

  /** A handler as registered; the call of a `Caller` uses the component as task `t`. */
  datatype Registered = Waker(id: nat) | Caller(id: nat, t: TaskId)

  /** Handlers whose list has been used up: their calls release the lock without handlers. */
  function Again(rs: seq<Registered>): seq<Handler> {
    if rs == [] then []
    else [if rs[0].Caller? then SyncCall(rs[0].t, []) else Wake] + Again(rs[1..])
  }

  /**
   What a release does with the registered handlers.  The call made by a `Caller` ends in
   a release of its own, which runs all handlers still registered; the outer release,
   which goes through the list it started with, then runs them once more.
   */
  function Unfold(rs: seq<Registered>): seq<Handler> {
    if rs == [] then []
    else if rs[0].Caller? then [SyncCall(rs[0].t, Unfold(rs[1..]))] + Again(rs[1..])
    else [Wake] + Unfold(rs[1..])
  }

  lemma {:induction false} AgainShape(rs: seq<Registered>, i: nat)
    requires i < |rs|
    ensures |Again(rs)| == |rs| && Again(rs)[i] == if rs[i].Caller? then SyncCall(rs[i].t, []) else Wake
  {
    if i > 0 { AgainShape(rs[1..], i - 1); } else if |rs| > 1 { AgainShape(rs[1..], 0); }
  }

  /**
   The outer loop runs every handler in its place.  A caller's own release finds all those
   after it if no caller came before, and otherwise none, as an earlier one used them up.
   */
  lemma {:induction false} UnfoldShape(rs: seq<Registered>, i: nat)
    requires i < |rs|
    ensures |Unfold(rs)| == |rs| && (rs[i].Waker? <==> Unfold(rs)[i] == Wake)
    ensures rs[i].Caller? ==>
              && Unfold(rs)[i].SyncCall? && Unfold(rs)[i].t == rs[i].t
              && ((forall k :: 0 <= k < i ==> rs[k].Waker?) ==> Unfold(rs)[i].nested == Unfold(rs[i + 1..]))
              && (!(forall k :: 0 <= k < i ==> rs[k].Waker?) ==> Unfold(rs)[i].nested == [])
  {
    if i == 0 {
      if |rs| > 1 {
        AgainShape(rs[1..], 0);
        UnfoldShape(rs[1..], 0);
      }
    } else if rs[0].Caller? {
      AgainShape(rs[1..], i - 1);
    } else {
      UnfoldShape(rs[1..], i - 1);
      assert rs[1..][i..] == rs[i + 1..];
      assert forall k :: 1 <= k < i ==> rs[k] == rs[1..][k - 1];
    }
  }

  function Ids(rs: seq<Registered>): seq<nat> {
    if rs == [] then [] else [rs[0].id] + Ids(rs[1..])
  }

  /** The order in which a release runs the handlers. */
  function Order(rs: seq<Registered>): seq<nat> {
    if rs == [] then []
    else [rs[0].id] + Order(rs[1..]) + if rs[0].Caller? then Ids(rs[1..]) else []
  }

  function Times(s: seq<nat>, id: nat): nat {
    if s == [] then 0 else (if s[0] == id then 1 else 0) + Times(s[1..], id)
  }

  function Callers(rs: seq<Registered>): nat {
    if rs == [] then 0 else (if rs[0].Caller? then 1 else 0) + Callers(rs[1..])
  }

  predicate DistinctIds(rs: seq<Registered>) {
    forall i, j :: 0 <= i < j < |rs| ==> rs[i].id != rs[j].id
  }

  lemma {:induction false} TimesAppend(a: seq<nat>, b: seq<nat>, id: nat)
    ensures Times(a + b, id) == Times(a, id) + Times(b, id)
  {
    if a == [] {
      assert a + b == b;
    } else {
      assert (a + b)[1..] == a[1..] + b;
      TimesAppend(a[1..], b, id);
    }
  }

  lemma {:induction false} TimesIds(rs: seq<Registered>, id: nat)
    ensures (forall i :: 0 <= i < |rs| ==> rs[i].id != id) ==> Times(Ids(rs), id) == Times(Order(rs), id) == 0
    ensures DistinctIds(rs) ==> Times(Ids(rs), id) <= 1
    ensures forall i :: DistinctIds(rs) && 0 <= i < |rs| && rs[i].id == id ==> Times(Ids(rs), id) == 1
  {
    if rs != [] {
      var rest := rs[1..];
      TimesIds(rest, id);
      TimesAppend([rs[0].id] + Order(rest), if rs[0].Caller? then Ids(rest) else [], id);
      assert ([rs[0].id] + Order(rest))[1..] == Order(rest) && ([rs[0].id] + Ids(rest))[1..] == Ids(rest);
      assert forall i :: 0 <= i < |rest| ==> rest[i] == rs[i + 1];
    }
  }

  lemma {:induction false} NoCallers(rs: seq<Registered>)
    requires forall i :: 0 <= i < |rs| ==> rs[i].Waker?
    ensures Callers(rs) == 0 && Order(rs) == Ids(rs)
  {
    if rs != [] {
      NoCallers(rs[1..]);
    }
  }

  /** Handlers that only resolve promises run once each, in the order of their registration. */
  lemma WakersRunOnce(rs: seq<Registered>, i: nat)
    requires DistinctIds(rs) && i < |rs| && forall k :: 0 <= k < |rs| ==> rs[k].Waker?
    ensures Order(rs) == Ids(rs) && Times(Order(rs), rs[i].id) == 1
  {
    NoCallers(rs);
    NoCallers(rs[..i]);
    HandlerRuns(rs, i);
  }

  /** A handler runs once, and once more for each handler before it that calls the component. */
  lemma {:induction false} HandlerRuns(rs: seq<Registered>, i: nat)
    requires DistinctIds(rs) && i < |rs|
    ensures Times(Order(rs), rs[i].id) == 1 + Callers(rs[..i])
  {
    var rest, id, more := rs[1..], rs[i].id, if rs[0].Caller? then Ids(rs[1..]) else [];
    assert forall k :: 0 <= k < |rest| ==> rest[k] == rs[k + 1];
    TimesAppend([rs[0].id] + Order(rest), more, id);
    assert ([rs[0].id] + Order(rest))[1..] == Order(rest);
    TimesIds(rest, id);
    if i > 0 {
      HandlerRuns(rest, i - 1);
      assert rest[i - 1].id == id;
      assert rs[..i][1..] == rest[..i - 1];
    }
  }

  // ----- the object -----------------------------------------------------------------

  /** `array.filter(v => !!v)`. */
  function Present(items: seq<Option<Registered>>): seq<Registered> {
    if items == [] then []
    else (if items[0].Some? then [items[0].value] else []) + Present(items[1..])
  }

  lemma {:induction false} PresentConcat(a: seq<Option<Registered>>, b: seq<Option<Registered>>)
    ensures Present(a + b) == Present(a) + Present(b)
  {
    if a == [] {
      assert a + b == b;
    } else {
      assert (a + b)[1..] == a[1..] + b && (a + b)[0] == a[0];
      PresentConcat(a[1..], b);
      var first := if a[0].Some? then [a[0].value] else [];
      assert Present(a + b) == first + Present(a[1..] + b) && Present(a) == first + Present(a[1..]);
      hide Present;
      assert first + (Present(a[1..]) + Present(b)) == (first + Present(a[1..])) + Present(b);
    }
  }

  lemma PresentAppend(items: seq<Option<Registered>>, item: Option<Registered>)
    ensures Present(items + [item]) == Present(items) + if item.Some? then [item.value] else []
  {
    PresentConcat(items, [item]);
  }

  function Whole(rs: seq<Registered>): (items: seq<Option<Registered>>)
    ensures |items| == |rs| && forall i :: 0 <= i < |rs| ==> items[i] == Some(rs[i])
  {
    seq(|rs|, i requires 0 <= i < |rs| => Some(rs[i]))
  }

  /** `array[idx] = null`; writing past the end leaves holes, which `filter` skips. */
  function Nulled(items: seq<Option<Registered>>, idx: nat): (r: seq<Option<Registered>>)
    ensures |r| == if idx < |items| then |items| else idx + 1
    ensures forall i :: 0 <= i < |items| && i != idx ==> r[i] == items[i]
    ensures r[idx] == None && forall i :: |items| <= i < |r| ==> r[i] == None
  {
    if idx < |items| then items[idx := None] else items + seq(idx + 1 - |items|, _ => None)
  }

  /** All of the array has been run. */
  predicate Spent(items: seq<Option<Registered>>) {
    forall i :: 0 <= i < |items| ==> items[i] == None
  }

  lemma {:induction false} PresentWhole(rs: seq<Registered>)
    ensures Present(Whole(rs)) == rs
  {
    if rs != [] {
      assert Whole(rs)[1..] == Whole(rs[1..]);
      PresentWhole(rs[1..]);
    }
  }

  /** Taking the next handler of an array out of which the ones before are gone. */
  lemma PresentNulled(items: seq<Option<Registered>>, rs: seq<Registered>, i: nat)
    requires i < |rs| == |items| && Present(items) == rs[i..]
    requires forall k :: i <= k < |rs| ==> items[k] == Some(rs[k])
    ensures Present(Nulled(items, i)) == rs[i + 1..]
  {
    hide Present, Whole;
    NothingBefore(items, rs, i);
    WholeFrom(items, rs, i + 1);
    PresentWhole(rs[i + 1..]);
    PresentNone(items[i + 1..]);
    PresentConcat(items[..i], [None] + items[i + 1..]);
    assert Nulled(items, i) == items[..i] + ([None] + items[i + 1..]);
  }

  lemma NothingBefore(items: seq<Option<Registered>>, rs: seq<Registered>, i: nat)
    requires i < |rs| == |items| && Present(items) == rs[i..]
    requires forall k :: i <= k < |rs| ==> items[k] == Some(rs[k])
    ensures Present(items[..i]) == []
  {
    hide Present, Whole;
    WholeFrom(items, rs, i);
    PresentWhole(rs[i..]);
    PresentConcat(items[..i], items[i..]);
    assert items == items[..i] + items[i..];
    assert |Present(items[..i])| == 0;
  }

  lemma WholeFrom(items: seq<Option<Registered>>, rs: seq<Registered>, i: nat)
    requires i <= |rs| == |items|
    requires forall k :: i <= k < |rs| ==> items[k] == Some(rs[k])
    ensures items[i..] == Whole(rs[i..])
  {
  }

  lemma PresentNone(items: seq<Option<Registered>>)
    ensures Present([None] + items) == Present(items)
  {
    assert ([None] + items)[1..] == items;
  }

  lemma {:induction false} PresentEmpty(items: seq<Option<Registered>>)
    requires Present(items) == []
    ensures Spent(items)
  {
    if items != [] {
      PresentEmpty(items[1..]);
      assert items == [items[0]] + items[1..];
    }
  }

  lemma PresentStays(items: seq<Option<Registered>>, i: nat)
    requires Present(items) == []
    ensures Present(Nulled(items, i)) == []
  {
    PresentEmpty(items);
    PresentSpent(Nulled(items, i));
  }

  lemma {:induction false} PresentSpent(items: seq<Option<Registered>>)
    requires Spent(items)
    ensures Present(items) == []
  {
    if items != [] {
      PresentSpent(items[1..]);
    }
  }

  datatype Acquisition = Acquired | Waiting | AlreadyHolds

  /** What `r` does while `rest` are registered. */
  function HandlerOf(r: Registered, rest: seq<Registered>): Handler {
    if r.Caller? then SyncCall(r.t, Unfold(rest)) else Wake
  }

  lemma TraceCons(l: Lock, h: Handler, hs: seq<Handler>)
    ensures var l' := Run(l, HandlerTrace(l, h));
            Run(l, HandlersTrace(l, [h] + hs)) == Run(l', HandlersTrace(l', hs))
  {
    assert ([h] + hs)[1..] == hs;
    RunAppend(l, HandlerTrace(l, h), HandlersTrace(Run(l, HandlerTrace(l, h)), hs));
  }

  /** What a loop at `i` has still to do, in a first or a second pass over the handlers. */
  function Remaining(rs: seq<Registered>, i: nat, first: bool): seq<Handler>
    requires i <= |rs|
  {
    if first then Unfold(rs[i..]) else Again(rs[i..])
  }

  function RemainingOrder(rs: seq<Registered>, i: nat, first: bool): seq<nat>
    requires i <= |rs|
  {
    if first then Order(rs[i..]) else Ids(rs[i..])
  }

  function RestOf(rs: seq<Registered>, i: nat, first: bool): seq<Registered>
    requires i < |rs|
  {
    if first then rs[i + 1..] else []
  }

  /** What the handler at `i` adds to the trace and to the order. */
  lemma TurnTrace(l: Lock, rs: seq<Registered>, i: nat, first: bool)
    requires i < |rs|
    ensures var l' := Run(l, HandlerTrace(l, HandlerOf(rs[i], RestOf(rs, i, first))));
            Run(l, HandlersTrace(l, Remaining(rs, i, first)))
            == Run(l', HandlersTrace(l', Remaining(rs, i + 1, first && !rs[i].Caller?)))
  {
    assert rs[i..][1..] == rs[i + 1..] && rs[i..][0] == rs[i];
    var h, hs := HandlerOf(rs[i], RestOf(rs, i, first)), Remaining(rs, i + 1, first && !rs[i].Caller?);
    assert Remaining(rs, i, first) == [h] + hs;
    hide Remaining, HandlersTrace, Run, HandlerTrace, Unfold, Again;
    TraceCons(l, h, hs);
  }

  lemma TurnOrder(rs: seq<Registered>, i: nat, first: bool)
    requires i < |rs|
    ensures RemainingOrder(rs, i, first)
            == [rs[i].id] + (if rs[i].Caller? then Order(RestOf(rs, i, first)) else [])
               + RemainingOrder(rs, i + 1, first && !rs[i].Caller?)
  {
    assert rs[i..][1..] == rs[i + 1..] && rs[i..][0] == rs[i];
    assert Order([]) == [];
  }

  /** The rest of the loop leads to `goal` and completes `order`. */
  ghost predicate OnCourse(l: Lock, ran: seq<nat>, rs: seq<Registered>, i: nat, first: bool, goal: Lock,
                           order: seq<nat>)
    requires i <= |rs|
  {
    Run(l, HandlersTrace(l, Remaining(rs, i, first))) == goal && ran + RemainingOrder(rs, i, first) == order
  }

  lemma CourseStarts(l: Lock, ran: seq<nat>, rs: seq<Registered>)
    ensures OnCourse(l, ran, rs, 0, true, Run(l, HandlersTrace(l, Unfold(rs))), ran + Order(rs))
  {
    assert rs[0..] == rs;
  }

  lemma CourseEnds(l: Lock, ran: seq<nat>, rs: seq<Registered>, first: bool, goal: Lock, order: seq<nat>)
    requires OnCourse(l, ran, rs, |rs|, first, goal, order)
    ensures l == goal && ran == order
  {
    NoTrace(l);
  }

  lemma CourseKept(
    l: Lock, ran: seq<nat>, rs: seq<Registered>, i: nat, first: bool, goal: Lock, order: seq<nat>,
    l': Lock, ran': seq<nat>)
    requires i < |rs| && OnCourse(l, ran, rs, i, first, goal, order)
    requires l' == Run(l, HandlerTrace(l, HandlerOf(rs[i], RestOf(rs, i, first))))
    requires ran' == ran + [rs[i].id] + if rs[i].Caller? then Order(RestOf(rs, i, first)) else []
    ensures OnCourse(l', ran', rs, i + 1, first && !rs[i].Caller?, goal, order)
  {
    hide Remaining, RemainingOrder, RestOf, Order, Run, HandlersTrace, HandlerTrace, HandlerOf;
    TurnTrace(l, rs, i, first);
    TurnOrder(rs, i, first);
    var a, b := [rs[i].id] + (if rs[i].Caller? then Order(RestOf(rs, i, first)) else []), rs[i].Caller?;
    var c := RemainingOrder(rs, i + 1, first && !b);
    assert ran + (a + c) == (ran + a) + c;
    assert ran' == ran + a;
  }

  lemma NoTrace(l: Lock)
    ensures Run(l, HandlersTrace(l, [])) == l
  {
  }

  /** The call of `r` ends in a release that counts. */
  predicate Releases(r: Registered, l: Lock) {
    r.Caller? && (l.holder == None || l.holder == Some(r.t))
  }

  class ComponentLock {
    var holderTaskID: Option<TaskId>
    var waiters: seq<TaskId>
    var handoffScheduled: bool
    /**
     The handler arrays made so far, and the one in the field now: a release replaces
     the array in the field by a filtered copy, and loops may still run over older ones.
     */
    var arrays: seq<seq<Option<Registered>>>
    var current: nat
    ghost var releasing: nat
    /** The handlers run so far. */
    ghost var ran: seq<nat>

    ghost function State(): Lock
      reads this
    {
      Lock(holderTaskID, waiters, handoffScheduled, releasing)
    }

    ghost predicate Valid()
      reads this
    {
      current < |arrays|
    }

    /** The handlers registered and not yet run. */
    function Pending(): seq<Registered>
      requires current < |arrays|
      reads this
    {
      Present(arrays[current])
    }

    constructor ()
      ensures Valid() && State() == UNLOCKED && Pending() == [] && ran == []
    {
      holderTaskID, waiters, handoffScheduled, releasing := None, [], false, 0;
      arrays, current, ran := [[]], 0, [];
    }

    /** `onNextExclusiveRelease`. */
    method OnNextExclusiveRelease(r: Registered)
      requires Valid()
      modifies this`arrays
      ensures Valid() && Pending() == old(Pending()) + [r]
    {
      PresentAppend(arrays[current], Some(r));
      arrays := arrays[current := arrays[current] + [Some(r)]];
    }

    method IsExclusivelyLocked() returns (b: bool)
      ensures b == (State().holder != None)
    {
      b := holderTaskID != None;
    }

    method ExclusivelyLockedBy(taskID: TaskId) returns (b: bool)
      ensures b == (State().holder == Some(taskID))
    {
      b := holderTaskID == Some(taskID);
    }

    /** Throws (`ok` is false) when the lock is held, by whomever. */
    method ExclusiveLock(taskID: TaskId) returns (ok: bool)
      modifies this`holderTaskID
      ensures State() == Step(old(State()), Event.ExclusiveLock(taskID))
      ensures ok == Granted(old(State()), Event.ExclusiveLock(taskID)).Some?
    {
      if holderTaskID != None {
        return false;
      }
      holderTaskID := Some(taskID);
      return true;
    }

    method AcquireExclusiveLock(taskID: TaskId) returns (r: Acquisition)
      modifies this`holderTaskID, this`waiters
      ensures State() == Step(old(State()), Acquire(taskID))
      ensures r.Acquired? == Granted(old(State()), Acquire(taskID)).Some?
      ensures r.AlreadyHolds? == (old(State()).holder == Some(taskID))
    {
      if holderTaskID == None {
        holderTaskID := Some(taskID);
        return Acquired;
      }
      if holderTaskID == Some(taskID) {
        return AlreadyHolds;
      }
      waiters := waiters + [taskID];
      return Waiting;
    }

    method ScheduleLockHandoff()
      modifies this`handoffScheduled
      ensures State() == ScheduleHandoff(old(State()))
    {
      if handoffScheduled || |waiters| == 0 {
        return;
      }
      handoffScheduled := true;
    }

    /** One handler: a `Caller` uses the component synchronously, and its exit releases the lock. */
    method RunHandler(r: Registered)
      requires Valid()
      modifies this
      ensures Valid() && old(arrays) <= arrays
      ensures State() == Run(old(State()), HandlerTrace(old(State()), HandlerOf(r, old(Pending()))))
      ensures ran == old(ran) + [r.id] + if Releases(r, old(State())) then Order(old(Pending())) else []
      ensures Pending() == if Releases(r, old(State())) then [] else old(Pending())
      ensures !Releases(r, old(State())) ==> arrays == old(arrays) && current == old(current)
      ensures Releases(r, old(State())) ==> current >= |old(arrays)|
      decreases |Pending()|, 4
    {
      ran := ran + [r.id];
      match r {
        case Waker(_) =>
        case Caller(_, t) =>
          ghost var l := State();
          ghost var entry := if l.holder == None then [Event.ExclusiveLock(t)] else [];
          RunOne(l, Event.ExclusiveLock(t));
          var locked := IsExclusivelyLocked();
          if !locked {
            var _ := ExclusiveLock(t);
          }
          RunAppend(l, entry, ReleaseTrace(State(), t, Unfold(Pending())));
          var _ := ExclusiveRelease(t);
      }
    }

    /** Writes `null` to the array now in the field, which need not be the one looped over. */
    method Forget(idx: nat)
      requires Valid()
      modifies this`arrays
      ensures Valid() && arrays == old(arrays)[current := Nulled(old(arrays)[current], idx)]
    {
      arrays := arrays[current := Nulled(arrays[current], idx)];
    }

    /**
     The loop over the array `mine`, made from `rs`, has reached `i`.  What is still
     registered is the rest of `rs`, or nothing once a nested release went through it.
     */
    ghost predicate Looping(mine: nat, i: nat, rs: seq<Registered>)
      reads this
    {
      && mine <= current < |arrays| && |arrays[mine]| == |rs| && i <= |rs|
      && (forall k :: i <= k < |rs| ==> arrays[mine][k] == Some(rs[k]))
      && Pending() == if current == mine then rs[i..] else []
    }

    /** The start of a turn: the handler at `i` is no longer registered. */
    method TakeNext(mine: nat, i: nat, ghost rs: seq<Registered>) returns (r: Registered)
      requires i < |rs| && Looping(mine, i, rs)
      modifies this`arrays
      ensures Valid() && |arrays| == |old(arrays)| && old(arrays)[..mine] <= arrays && |arrays[mine]| == |rs|
      ensures r == rs[i] && forall k :: i < k < |rs| ==> arrays[mine][k] == Some(rs[k])
      ensures Pending() == if current == mine then rs[i + 1..] else []
    {
      var f := arrays[mine][i];
      if current == mine {
        PresentNulled(arrays[mine], rs, i);
      } else {
        PresentStays(arrays[current], i);
      }
      hide Present;
      Forget(i);
      r := f.value;
    }

    /** One turn of the loop. */
    method Turn(mine: nat, i: nat, ghost rs: seq<Registered>)
      requires i < |rs| && Looping(mine, i, rs) && State().holder == None
      modifies this
      ensures Looping(mine, i + 1, rs) && State().holder == None
      ensures old(arrays)[..mine] <= arrays
      ensures (current == mine) == (old(current) == mine && !rs[i].Caller?)
      ensures var rest := RestOf(rs, i, old(current) == mine);
              && State() == Run(old(State()), HandlerTrace(old(State()), HandlerOf(rs[i], rest)))
              && ran == old(ran) + [rs[i].id] + if rs[i].Caller? then Order(rest) else []
      decreases |rs|, 0
    {
      hide Run, HandlerTrace, Order, Unfold, Present;
      var r := TakeNext(mine, i, rs);
      HandlerLeavesFree(State(), HandlerOf(r, Pending()));
      ghost var kept := arrays;
      RunHandler(r);
      assert arrays[mine] == kept[mine];
    }

    /** The handlers of one release, from the array just put into the field. */
    method RunHandlers(ghost rs: seq<Registered>)
      requires Valid() && arrays[current] == Whole(rs) && Pending() == rs && State().holder == None
      modifies this
      ensures Valid() && old(arrays)[..old(current)] <= arrays && current >= old(current) && Pending() == []
      ensures State() == Run(old(State()), HandlersTrace(old(State()), Unfold(rs)))
      ensures ran == old(ran) + Order(rs)
      decreases |rs|, 1
    {
      hide Present, Nulled, Run, HandlerTrace, HandlersTrace, OnCourse, Order, Unfold;
      var mine := current;
      ghost var goal, order := Run(State(), HandlersTrace(State(), Unfold(rs))), ran + Order(rs);
      CourseStarts(State(), ran, rs);
      var i := 0;
      while i < |arrays[mine]|
        invariant i <= |rs| && Looping(mine, i, rs) && State().holder == None
        invariant old(arrays)[..mine] <= arrays
        invariant OnCourse(State(), ran, rs, i, current == mine, goal, order)
      {
        ghost var l, before, first := State(), ran, current == mine;
        Turn(mine, i, rs);
        CourseKept(l, before, rs, i, first, goal, order, State(), ran);
        i := i + 1;
      }
      CourseEnds(State(), ran, rs, current == mine, goal, order);
    }

    /**
     `exclusiveRelease`: the holder's release clears the lock, runs the handlers, each as
     often as `Order` says, and schedules a hand-off; anyone else's changes nothing.
     */
    method ExclusiveRelease(taskID: TaskId) returns (released: bool)
      requires Valid()
      modifies this
      ensures Valid() && old(arrays) <= arrays
      ensures released == (old(State()).holder == Some(taskID))
      ensures State() == Run(old(State()), ReleaseTrace(old(State()), taskID, Unfold(old(Pending()))))
      ensures ran == old(ran) + if released then Order(old(Pending())) else []
      ensures Pending() == if released then [] else old(Pending())
      ensures !released ==> arrays == old(arrays) && current == old(current)
      ensures released ==> current >= |old(arrays)|
      decreases |Pending()|, 3
    {
      hide Run, HandlersTrace, ReleaseTrace, Present, Whole, Order, Unfold;
      ghost var l, rs := State(), Pending();
      RunOne(l, BeginRelease(taskID));
      ReleaseBalanced(l, taskID, Unfold(rs));
      if l.holder != Some(taskID) { ReleaseForeign(l, taskID, Unfold(rs)); }
      PresentWhole(rs);
      if holderTaskID != Some(taskID) {
        return false;
      }
      holderTaskID := None;
      releasing := releasing + 1;
      arrays := arrays + [Whole(Present(arrays[current]))];
      current := |arrays| - 1;
      RunHandlers(rs);
      releasing := releasing - 1;
      ScheduleLockHandoff();
      return true;
    }

    /** The microtask queued by `#scheduleLockHandoff`. */
    method HandoffMicrotask()
      modifies this`holderTaskID, this`waiters, this`handoffScheduled
      ensures State() == Step(old(State()), Handoff)
    {
      if !handoffScheduled {
        return;
      }
      handoffScheduled := false;
      if holderTaskID != None {
        ScheduleLockHandoff();
        return;
      }
      if |waiters| == 0 {
        return;
      }
      var next := waiters[0];
      waiters := waiters[1..];
      holderTaskID := Some(next);
    }
  }
}
