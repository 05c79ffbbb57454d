/**
 What code on both sides of the component boundary does in nested calls, and what
 follows for the two flags of the component: whether it has trapped and whether it may
 leave.

 A guest calls host functions; a host function may call exports of the same component
 again, any number of times, whose guests call the host in turn.  What the code on
 either side does is given as a tree.  `HostRun`, `GuestRun` and `ExportRun` say what
 the glue between them makes of it; `ExportCall` and `HostCalls` refine them.
 */
module Programs {
  import opened Wrappers

  /** What distinguishes thrown values: `markTrapped` and `getErrorPayload` look at nothing else. */
  datatype ErrorKind = RuntimeError | PlainError | WithPayload(payload: JsValue)

  /** The `errHandling` of a host function: `none` or `result-catch-handler`. */
  datatype Handling = PassOn | CatchResult

  /** How a host function ends; `conversion` is an error met while its result is written for the guest. */
  datatype HostEnd =
    | ArgumentsFail(kind: ErrorKind)
    | Raises(kind: ErrorKind, conversion: Option<ErrorKind>)
    | Gives(value: JsValue, conversion: Option<ErrorKind>)

  /** One call of a host function, with the exports it calls before it ends. */
  datatype HostCall = HostCall(handling: Handling, callbacks: seq<Guest>, end: HostEnd)

  /** The tagged result the guest left in memory. */
  datatype ReturnArea = OkTag(payload: nat) | ErrTag(payload: nat) | OtherTag

  datatype GuestEnd = Throws(kind: ErrorKind) | Return(area: ReturnArea, postReturn: Option<ErrorKind>)

  /**
   One call of an export: an error met while its arguments are lowered, the host calls
   its guest makes, and how the guest ends if all of them return.
   */
  datatype Guest = Guest(lowering: Option<ErrorKind>, calls: seq<HostCall>, end: GuestEnd)

  datatype Flags = Flags(trapped: bool, mayLeave: bool)

  /** How a host call looks to the guest; all but `Returned` and `Caught` unwind it. */
  datatype HostOutcome =
    | Denied
    | Returned(value: JsValue)
    | Caught(payload: JsValue)
    | Rejected(kind: ErrorKind)
    | Escaped(kind: ErrorKind)

  datatype Failure =
    | ComponentTrapped
    | LoweringError
    | GuestThrew
    | InvalidDiscriminant
    | PostReturnError
    | AlreadyResolved
    | AlreadyExited
    | NotResolved
    | LockNotHeld

  datatype Answer = Answer(ok: bool, payload: nat)

  /** `markTrapped` was given an error, a host call ended, or a post-return function ran. */
  datatype Event = Marked(kind: ErrorKind) | HostEnded(outcome: HostOutcome) | PostReturned(ok: bool)

  datatype Course<T> = Course(flags: Flags, trace: seq<Event>, result: T)

  // ----- host functions -----------------------------------------------------------------

  function Thrown(o: HostOutcome): Option<ErrorKind> {
    match o
    case Denied => Some(RuntimeError)
    case Rejected(kind) => Some(kind)
    case Escaped(kind) => Some(kind)
    case _ => None
  }

  function Delivered(o: HostOutcome, conversion: Option<ErrorKind>): HostOutcome {
    if conversion.Some? then Escaped(conversion.value) else o
  }

  /** What the trampoline makes of the end of a host function. */
  function OutcomeOf(c: HostCall): HostOutcome {
    match c.end
    case ArgumentsFail(kind) => Escaped(kind)
    case Gives(value, conversion) => Delivered(Returned(value), conversion)
    case Raises(kind, conversion) =>
      if c.handling == PassOn then Rejected(kind)
      else
        match kind
        case WithPayload(payload) => Delivered(Caught(payload), conversion)
        case _ => Escaped(kind)
  }

  function Mark(fl: Flags, kind: ErrorKind): Flags {
    if kind == RuntimeError then fl.(trapped := true) else fl
  }

  function MarksOf(c: HostCall): seq<Event> {
    if c.end.Raises? then [Marked(c.end.kind)] else []
  }

  /** A host call: refused when the component may not leave, else its callbacks and its end. */
  function HostRun(fl: Flags, c: HostCall): Course<HostOutcome>
    decreases c, 0
  {
    if !fl.mayLeave then Course(fl, [HostEnded(Denied)], Denied)
    else if c.end.ArgumentsFail? then Course(fl, [HostEnded(OutcomeOf(c))], OutcomeOf(c))
    else
      var n := ExportRuns(fl, c.callbacks);
      var flags := if c.end.Raises? then Mark(n.flags, c.end.kind) else n.flags;
      Course(flags, n.trace + MarksOf(c) + [HostEnded(OutcomeOf(c))], OutcomeOf(c))
  }

  // ----- guests and exports ---------------------------------------------------------------

  /** The host calls of a guest, up to the first that unwinds it. */
  function GuestRun(fl: Flags, cs: seq<HostCall>): Course<Option<HostOutcome>>
    decreases cs, 0
  {
    if cs == [] then Course(fl, [], None)
    else
      var h := HostRun(fl, cs[0]);
      if Thrown(h.result).Some? then Course(h.flags, h.trace, Some(h.result))
      else
        var n := GuestRun(h.flags, cs[1..]);
        Course(n.flags, h.trace + n.trace, n.result)
  }

  /** What comes out of the guest, if something was thrown. */
  function GuestError(o: Option<HostOutcome>, end: GuestEnd): Option<ErrorKind> {
    if o.Some? then Thrown(o.value) else if end.Throws? then Some(end.kind) else None
  }

  /** One call of an export, from the check for traps to the post-return function. */
  function ExportRun(fl: Flags, g: Guest): Course<Result<Answer, Failure>>
    decreases g, 0
  {
    if fl.trapped then Course(fl, [], Err(ComponentTrapped))
    else if g.lowering.Some? then Course(fl, [], Err(LoweringError))
    else
      var n := GuestRun(fl, g.calls);
      var thrown := GuestError(n.result, g.end);
      if thrown.Some? then Course(Mark(n.flags, thrown.value), n.trace + [Marked(thrown.value)], Err(GuestThrew))
      else if g.end.Throws? || g.end.area == OtherTag then Course(n.flags, n.trace, Err(InvalidDiscriminant))
      else
        var ok := g.end.postReturn == None;
        Course(n.flags.(mayLeave := ok), n.trace + [PostReturned(ok)],
               if ok then Ok(Answer(g.end.area.OkTag?, g.end.area.payload)) else Err(PostReturnError))
  }

  /** Calls of exports one after the other, whether made by a host function or from outside. */
  function ExportRuns(fl: Flags, gs: seq<Guest>): (r: Course<seq<Result<Answer, Failure>>>)
    ensures |r.result| == |gs|
    decreases gs, 0
  {
    if gs == [] then Course(fl, [], [])
    else
      var first := ExportRun(fl, gs[0]);
      var n := ExportRuns(first.flags, gs[1..]);
      Course(n.flags, first.trace + n.trace, [first.result] + n.result)
  }

  // ----- what each end leads to -------------------------------------------------------------

  /** The outcome of a host call that is not refused, by its end, one way and the other. */
  lemma OutcomeExact(c: HostCall)
    ensures forall v :: OutcomeOf(c) == Returned(v) <==> c.end == Gives(v, None)
    ensures forall p ::
              OutcomeOf(c) == Caught(p) <==> c.handling == CatchResult && c.end == Raises(WithPayload(p), None)
    ensures forall k :: OutcomeOf(c) == Rejected(k) <==> c.handling == PassOn && c.end.Raises? && c.end.kind == k
    ensures forall k ::
              OutcomeOf(c) == Escaped(k) <==>
              || c.end == ArgumentsFail(k)
              || (c.end.Gives? && c.end.conversion == Some(k))
              || (c.handling == CatchResult && c.end.Raises? && !c.end.kind.WithPayload? && c.end.kind == k)
              || (c.handling == CatchResult && c.end.Raises? && c.end.kind.WithPayload? && c.end.conversion == Some(k))
    ensures OutcomeOf(c) != Denied
  {
  }

  /** A host call is refused exactly when the component may not leave, and then nothing happens. */
  lemma DeniedIff(fl: Flags, c: HostCall)
    ensures HostRun(fl, c).result == Denied <==> !fl.mayLeave
    ensures !fl.mayLeave ==> HostRun(fl, c).flags == fl
    ensures fl.mayLeave ==> HostRun(fl, c).result == OutcomeOf(c)
  {
    OutcomeExact(c);
  }

  /** A refused call throws a runtime error into the guest; one that is rejected or passed by, its own error. */
  lemma ThrownExact(o: HostOutcome)
    ensures Thrown(o) == None <==> o.Returned? || o.Caught?
    ensures o == Denied ==> Thrown(o) == Some(RuntimeError)
    ensures forall k :: o == Rejected(k) || o == Escaped(k) ==> Thrown(o) == Some(k)
  {
  }

  /** If a guest's calls all return, each was allowed to leave and returned. */
  lemma {:induction false} GuestReturns(fl: Flags, cs: seq<HostCall>)
    requires GuestRun(fl, cs).result == None
    ensures forall i :: 0 <= i < |cs| ==> OutcomeOf(cs[i]).Returned? || OutcomeOf(cs[i]).Caught?
    decreases cs
  {
    if cs != [] {
      DeniedIff(fl, cs[0]);
      ThrownExact(HostRun(fl, cs[0]).result);
      GuestReturns(HostRun(fl, cs[0]).flags, cs[1..]);
    }
  }

  /** And if one does not, it is the last, and what it throws is what the guest ends with. */
  lemma {:induction false} GuestUnwinds(fl: Flags, cs: seq<HostCall>)
    requires GuestRun(fl, cs).result.Some?
    ensures var o := GuestRun(fl, cs).result.value;
            o.Denied? || exists i :: 0 <= i < |cs| && OutcomeOf(cs[i]) == o && (o.Rejected? || o.Escaped?)
    decreases cs
  {
    DeniedIff(fl, cs[0]);
    ThrownExact(HostRun(fl, cs[0]).result);
    if Thrown(HostRun(fl, cs[0]).result) == None {
      GuestUnwinds(HostRun(fl, cs[0]).flags, cs[1..]);
      var o := GuestRun(fl, cs).result.value;
      if !o.Denied? {
        var i :| 0 <= i < |cs[1..]| && OutcomeOf(cs[1..][i]) == o;
        assert cs[i + 1] == cs[1..][i];
      }
    }
  }

  /**
   What a call answers, one way and the other: a tag `ok` is a value, `err` an error with
   the guest's payload, any other tag and everything thrown a failure of its own kind.
   `returned` says that the guest was reached and all its host calls returned.
   */
  ghost predicate AnswerTable(r: Result<Answer, Failure>, trapped: bool, g: Guest, returned: bool) {
    && (forall p :: r == Ok(Answer(true, p)) <==> returned && g.end == Return(OkTag(p), None))
    && (forall p :: r == Ok(Answer(false, p)) <==> returned && g.end == Return(ErrTag(p), None))
    && (r == Err(ComponentTrapped) <==> trapped)
    && (r == Err(LoweringError) <==> !trapped && g.lowering.Some?)
    && (r == Err(GuestThrew) <==> !trapped && g.lowering == None && (!returned || g.end.Throws?))
    && (r == Err(InvalidDiscriminant) <==> returned && g.end.Return? && g.end.area == OtherTag)
    && (r == Err(PostReturnError) <==> returned && g.end.Return? && g.end.area != OtherTag && g.end.postReturn.Some?)
  }

  lemma AnswerExact(fl: Flags, g: Guest)
    ensures var returned := !fl.trapped && g.lowering == None && GuestRun(fl, g.calls).result == None;
            AnswerTable(ExportRun(fl, g).result, fl.trapped, g, returned)
  {
    if GuestRun(fl, g.calls).result.Some? {
      GuestUnwinds(fl, g.calls);
    }
    hide GuestRun, OutcomeOf;
  }

  /** The flags after one call, from those after its guest's calls. */
  lemma FlagsExact(fl: Flags, g: Guest)
    requires !fl.trapped && g.lowering == None
    ensures var n := GuestRun(fl, g.calls);
            var after, thrown := ExportRun(fl, g).flags, GuestError(n.result, g.end);
            && (after.trapped <==> n.flags.trapped || thrown == Some(RuntimeError))
            && (thrown == None && g.end.Return? && g.end.area != OtherTag ==>
                  (after.mayLeave <==> g.end.postReturn == None))
            && (thrown.Some? || g.end.Throws? || g.end.area == OtherTag ==> after.mayLeave == n.flags.mayLeave)
  {
    hide GuestRun;
  }

  /** And after a host call, from those after its callbacks. */
  lemma HostFlagsExact(fl: Flags, c: HostCall)
    requires fl.mayLeave
    ensures var n := if c.end.ArgumentsFail? then fl else ExportRuns(fl, c.callbacks).flags;
            var after := HostRun(fl, c).flags;
            && after.mayLeave == n.mayLeave
            && (after.trapped <==> n.trapped || (c.end.Raises? && c.end.kind == RuntimeError))
  {
  }

  // ----- the flags follow the trace ---------------------------------------------------------

  /** The outcome of the last post-return function in the trace, or `before` if there was none. */
  function LastPostReturn(trace: seq<Event>, before: bool): bool {
    if trace == [] then before
    else LastPostReturn(trace[1..], if trace[0].PostReturned? then trace[0].ok else before)
  }

  /** What a trace means for the flags. */
  ghost predicate Follows(before: Flags, trace: seq<Event>, after: Flags) {
    && (after.trapped <==> before.trapped || Marked(RuntimeError) in trace)
    && after.mayLeave == LastPostReturn(trace, before.mayLeave)
  }

  lemma {:induction false} LastAppend(a: seq<Event>, b: seq<Event>, before: bool)
    ensures LastPostReturn(a + b, before) == LastPostReturn(b, LastPostReturn(a, before))
  {
    if a == [] {
      assert a + b == b;
    } else {
      assert (a + b)[1..] == a[1..] + b;
      LastAppend(a[1..], b, if a[0].PostReturned? then a[0].ok else before);
    }
  }

  lemma FollowsBoth(f0: Flags, a: seq<Event>, f1: Flags, b: seq<Event>, f2: Flags)
    requires Follows(f0, a, f1) && Follows(f1, b, f2)
    ensures Follows(f0, a + b, f2)
  {
    LastAppend(a, b, f0.mayLeave);
  }

  lemma {:induction false} HostFollows(fl: Flags, c: HostCall)
    ensures Follows(fl, HostRun(fl, c).trace, HostRun(fl, c).flags)
    decreases c, 0
  {
    var last := [HostEnded(OutcomeOf(c))];
    if fl.mayLeave && !c.end.ArgumentsFail? {
      var n := ExportRuns(fl, c.callbacks);
      ExportsFollow(fl, c.callbacks);
      var after := HostRun(fl, c).flags;
      assert Follows(n.flags, MarksOf(c), after);
      assert Follows(after, last, after);
      FollowsBoth(fl, n.trace, n.flags, MarksOf(c), after);
      FollowsBoth(fl, n.trace + MarksOf(c), after, last, after);
    }
  }

  lemma {:induction false} GuestFollows(fl: Flags, cs: seq<HostCall>)
    ensures Follows(fl, GuestRun(fl, cs).trace, GuestRun(fl, cs).flags)
    decreases cs, 0
  {
    if cs != [] {
      var h := HostRun(fl, cs[0]);
      HostFollows(fl, cs[0]);
      if Thrown(h.result) == None {
        GuestFollows(h.flags, cs[1..]);
        FollowsBoth(fl, h.trace, h.flags, GuestRun(h.flags, cs[1..]).trace, GuestRun(fl, cs).flags);
      }
    }
  }

  /**
   A call leaves the component trapped exactly when it was, or when a WebAssembly runtime
   error was raised by a host function or came out of a guest; and able to leave exactly
   as the last post-return function run in it, nested calls included, left it.  Runtime
   errors met in lowering arguments or in a post-return function are not in the trace.
   */
  lemma {:induction false} ExportFollows(fl: Flags, g: Guest)
    ensures Follows(fl, ExportRun(fl, g).trace, ExportRun(fl, g).flags)
    decreases g, 0
  {
    if !fl.trapped && g.lowering == None {
      var n, after := GuestRun(fl, g.calls), ExportRun(fl, g).flags;
      GuestFollows(fl, g.calls);
      var thrown := GuestError(n.result, g.end);
      if thrown.Some? {
        assert Follows(n.flags, [Marked(thrown.value)], after);
        FollowsBoth(fl, n.trace, n.flags, [Marked(thrown.value)], after);
      } else if g.end.Return? && g.end.area != OtherTag {
        assert Follows(n.flags, [PostReturned(after.mayLeave)], after);
        FollowsBoth(fl, n.trace, n.flags, [PostReturned(after.mayLeave)], after);
      }
    }
  }

  lemma {:induction false} ExportsFollow(fl: Flags, gs: seq<Guest>)
    ensures Follows(fl, ExportRuns(fl, gs).trace, ExportRuns(fl, gs).flags)
    decreases gs, 0
  {
    if gs != [] {
      var first := ExportRun(fl, gs[0]);
      ExportFollows(fl, gs[0]);
      ExportsFollow(first.flags, gs[1..]);
      FollowsBoth(fl, first.trace, first.flags, ExportRuns(first.flags, gs[1..]).trace, ExportRuns(fl, gs).flags);
    }
  }

  // ----- traps ----------------------------------------------------------------------------------

  /** A trapped component stays trapped, and refuses every later call. */
  lemma {:induction false} TrapIsFinal(fl: Flags, gs: seq<Guest>)
    requires fl.trapped
    ensures ExportRuns(fl, gs).flags == fl && ExportRuns(fl, gs).trace == []
    ensures forall i :: 0 <= i < |gs| ==> ExportRuns(fl, gs).result[i] == Err(ComponentTrapped)
    decreases gs
  {
    if gs != [] {
      TrapIsFinal(fl, gs[1..]);
    }
  }

  /** The call reaches the guest, which calls the host. */
  predicate CallsHost(g: Guest) {
    g.lowering == None && g.calls != []
  }

  /** The call runs through to a successful post-return function without a host call. */
  predicate CompletesAlone(g: Guest) {
    && g.lowering == None && g.calls == []
    && g.end.Return? && g.end.area != OtherTag && g.end.postReturn == None
  }

  /** A component that may not leave traps with the next host call; only a call without one can reopen it. */
  lemma ShutComponent(fl: Flags, g: Guest)
    requires !fl.mayLeave && !fl.trapped
    ensures CallsHost(g) ==> ExportRun(fl, g).flags.trapped && ExportRun(fl, g).result == Err(GuestThrew)
    ensures ExportRun(fl, g).flags.mayLeave <==> CompletesAlone(g)
  {
    if CallsHost(g) {
      assert HostRun(fl, g.calls[0]).result == Denied;
      assert GuestRun(fl, g.calls) == Course(fl, [HostEnded(Denied)], Some(Denied));
    }
  }

  /**
   After a post-return function failed, over any sequence of calls: the first call that
   reaches the host, unless one completed without doing so before, traps the component
   for good.
   */
  lemma {:induction false} LockedOut(fl: Flags, gs: seq<Guest>, i: nat)
    requires !fl.mayLeave && i < |gs| && CallsHost(gs[i])
    requires forall j :: 0 <= j < i ==> !CompletesAlone(gs[j])
    ensures ExportRuns(fl, gs).flags.trapped && ExportRuns(fl, gs).result[i].Err?
    ensures forall j :: i < j < |gs| ==> ExportRuns(fl, gs).result[j] == Err(ComponentTrapped)
    decreases i
  {
    if fl.trapped {
      TrapIsFinal(fl, gs);
    } else {
      ShutComponent(fl, gs[0]);
      var first, rest := ExportRun(fl, gs[0]), gs[1..];
      if first.flags.trapped {
        TrapIsFinal(first.flags, rest);
      } else {
        assert rest[i - 1] == gs[i] && forall j :: 0 <= j < i - 1 ==> rest[j] == gs[j + 1];
        LockedOut(first.flags, rest, i - 1);
      }
    }
  }

  /** A guest's calls up to the `i`-th, and then the rest. */
  lemma {:induction false} GuestSplit(fl: Flags, cs: seq<HostCall>, i: nat)
    requires i <= |cs| && GuestRun(fl, cs[..i]).result == None
    ensures var n := GuestRun(fl, cs[..i]);
            var rest := GuestRun(n.flags, cs[i..]);
            GuestRun(fl, cs) == Course(rest.flags, n.trace + rest.trace, rest.result)
    decreases i
  {
    hide HostRun, GuestRun;
    if i == 0 {
      assert cs[..0] == [] && cs[0..] == cs;
      NoCalls(fl);
    } else {
      var h, tail := HostRun(fl, cs[0]), cs[1..];
      assert cs[..i][0] == cs[0] && cs[..i][1..] == tail[..i - 1] && cs[i..] == tail[i - 1..];
      NextCall(fl, cs);
      NextCall(fl, cs[..i]);
      GuestSplit(h.flags, tail, i - 1);
      var n := GuestRun(h.flags, tail[..i - 1]);
      var rest := GuestRun(n.flags, cs[i..]);
      assert h.trace + (n.trace + rest.trace) == (h.trace + n.trace) + rest.trace;
    }
  }

  lemma NoCalls(fl: Flags)
    ensures GuestRun(fl, []) == Course(fl, [], None)
  {
  }

  /** One more call at the end is made only if all before it returned. */
  lemma GuestAppend(fl: Flags, cs: seq<HostCall>, c: HostCall)
    ensures var n := GuestRun(fl, cs);
            var h := HostRun(n.flags, c);
            && (n.result.Some? ==> GuestRun(fl, cs + [c]) == n)
            && (n.result == None ==>
                  var thrown := if h.result.Returned? || h.result.Caught? then None else Some(h.result);
                  GuestRun(fl, cs + [c]) == Course(h.flags, n.trace + h.trace, thrown))
    decreases cs
  {
    hide HostRun, GuestRun;
    NoCalls(fl);
    NextCall(fl, cs + [c]);
    if cs == [] {
      assert cs + [c] == [c];
      OneCall(fl, c);
    } else {
      assert (cs + [c])[1..] == cs[1..] + [c];
      NextCall(fl, cs);
      GuestAppend(HostRun(fl, cs[0]).flags, cs[1..], c);
    }
  }

  lemma OneCall(fl: Flags, c: HostCall)
    ensures var h := HostRun(fl, c);
            GuestRun(fl, [c]) ==
            Course(h.flags, h.trace, if h.result.Returned? || h.result.Caught? then None else Some(h.result))
  {
    hide HostRun;
    ThrownExact(HostRun(fl, c).result);
  }

  lemma NextCall(fl: Flags, cs: seq<HostCall>)
    requires cs != []
    ensures var h := HostRun(fl, cs[0]);
            var n := GuestRun(h.flags, cs[1..]);
            if Thrown(h.result).Some? then GuestRun(fl, cs) == Course(h.flags, h.trace, Some(h.result))
            else GuestRun(fl, cs) == Course(n.flags, h.trace + n.trace, n.result)
  {
    hide HostRun;
  }

  /**
   The same inside a running guest: once a host call has left the component unable to
   leave, because an export called back by it failed in its post-return function, the
   guest's next host call is refused, and the component is trapped.
   */
  lemma ShutInside(fl: Flags, g: Guest, i: nat)
    requires !fl.trapped && g.lowering == None && i < |g.calls|
    requires GuestRun(fl, g.calls[..i]).result == None && !GuestRun(fl, g.calls[..i]).flags.mayLeave
    ensures GuestRun(fl, g.calls).result == Some(Denied)
    ensures GuestRun(fl, g.calls).trace == GuestRun(fl, g.calls[..i]).trace + [HostEnded(Denied)]
    ensures ExportRun(fl, g).flags.trapped && ExportRun(fl, g).result == Err(GuestThrew)
  {
    GuestSplit(fl, g.calls, i);
    var n, next := GuestRun(fl, g.calls[..i]), g.calls[i..];
    assert HostRun(n.flags, next[0]) == Course(n.flags, [HostEnded(Denied)], Denied);
    assert GuestRun(n.flags, next) == Course(n.flags, [HostEnded(Denied)], Some(Denied));
  }

  // ----- lost handles ---------------------------------------------------------------------------

  predicate Loses(o: HostOutcome) {
    o.Rejected? || o.Escaped?
  }

  /** How many host calls of the trace ended without a return. */
  function Losses(trace: seq<Event>): nat {
    if trace == [] then 0
    else (if trace[0].HostEnded? && Loses(trace[0].outcome) then 1 else 0) + Losses(trace[1..])
  }

  lemma {:induction false} LossesAppend(a: seq<Event>, b: seq<Event>)
    ensures Losses(a + b) == Losses(a) + Losses(b)
  {
    if a == [] {
      assert a + b == b;
    } else {
      assert (a + b)[1..] == a[1..] + b;
      LossesAppend(a[1..], b);
    }
  }

  /** A host call adds its own loss to those of its callbacks. */
  lemma HostLosses(fl: Flags, c: HostCall)
    requires fl.mayLeave && !c.end.ArgumentsFail?
    ensures Losses(HostRun(fl, c).trace) == Losses(ExportRuns(fl, c.callbacks).trace)
            + if Loses(OutcomeOf(c)) then 1 else 0
  {
    var t := ExportRuns(fl, c.callbacks).trace;
    LossesAppend(t, MarksOf(c));
    LossesAppend(t + MarksOf(c), [HostEnded(OutcomeOf(c))]);
  }
}
