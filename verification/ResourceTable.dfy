/**
 The handle table of one imported resource type: `rscTableCreateOwn`,
 `rscTableRemove`, and the capture table that keeps the host objects alive.

 The table is a JavaScript array of numbers in which bit 30 marks a free slot (even
 cell) or an owned rep (odd cell).  Writing past the end leaves holes, and removing a
 handle that was never issued is not rejected: it appends the handle to the free
 chain.  The model keeps both, so its results hold whatever handles the guest passes.
 */
module ResourceTables {
  import opened Wrappers
  import opened RepTables

  const T_FLAG: nat := 0x4000_0000

  /** A handle or rep that fits below the flag. */
  type Small = n: nat | n < T_FLAG

  /** A cell value: bit 30 is its highest bit. */
  type Bits31 = n: nat | n < 2 * T_FLAG

  datatype Slot = Hole | Bits(n: Bits31)

  /** `cell & T_FLAG`; a hole reads as `undefined`, which converts to 0. */
  predicate Flagged(c: Slot) { c.Bits? && c.n >= T_FLAG }

  /** `cell & ~T_FLAG`. */
  function Unflag(c: Slot): Small {
    if c.Hole? then 0 else if Flagged(c) then c.n - T_FLAG else c.n
  }

  /** `n | T_FLAG` for a cell whose flag may already be set. */
  function WithFlag(n: Bits31): Bits31 {
    if n >= T_FLAG then n else n + T_FLAG
  }

  /** Bit 30 is set, cleared and tested; the lower 30 bits are kept. */
  lemma FlagExact(n: Bits31)
    ensures WithFlag(n) / 1073741824 == 1 && WithFlag(n) % 1073741824 == n % 1073741824
    ensures Unflag(Bits(n)) == n % 1073741824
    ensures Flagged(Bits(n)) <==> n / 1073741824 == 1
    ensures !Flagged(Hole) && Unflag(Hole) == 0
  {
  }

  function Read(table: seq<Slot>, i: nat): Slot {
    if i < |table| then table[i] else Hole
  }

  function Holes(n: nat): seq<Slot> { seq(n, _ => Hole) }

  /** `table[i] = c` on a JavaScript array. */
  function Write(table: seq<Slot>, i: nat, c: Slot): (t: seq<Slot>)
    ensures |t| == if i < |table| then |table| else i + 1
  {
    if i < |table| then table[i := c] else table + Holes(i - |table|) + [c]
  }

  lemma WriteReads(table: seq<Slot>, i: nat, c: Slot)
    ensures var t := Write(table, i, c);
            Read(t, i) == c && forall j: nat :: j != i ==> Read(t, j) == Read(table, j)
  {
  }

  // ----- what the table means -------------------------------------------------------

  function Scope(table: seq<Slot>, h: nat): Slot { Read(table, 2 * h) }

  function Payload(table: seq<Slot>, h: nat): Slot { Read(table, 2 * h + 1) }

  ghost predicate FreeSlot(table: seq<Slot>, free: seq<nat>, i: nat)
    requires i < |free|
  {
    && 1 <= free[i] < T_FLAG && 2 * free[i] < |table|
    && Link(free, i + 1) < T_FLAG && Scope(table, free[i]) == Bits(T_FLAG + Link(free, i + 1))
  }

  ghost predicate LiveSlot(table: seq<Slot>, h: nat) {
    Scope(table, h) == Bits(0) && Flagged(Payload(table, h))
  }

  ghost predicate NeverIssued(table: seq<Slot>, h: nat) {
    Scope(table, h) == Hole && Payload(table, h) == Hole
  }

  /**
   The chain from cell 0 is acyclic and visits `free`, and every other handle is
   live or was never issued.
   */
  ghost predicate ChainedTable(table: seq<Slot>, free: seq<nat>) {
    && |table| >= 2
    && Link(free, 0) < T_FLAG && table[0] == Bits(T_FLAG + Link(free, 0)) && table[1] == Bits(0)
    && NoRepeats(free)
    && (forall i :: 0 <= i < |free| ==> FreeSlot(table, free, i))
    && (forall h: nat :: h >= 1 && h !in free ==> LiveSlot(table, h) || NeverIssued(table, h))
    && (|table| % 2 == 1 ==> |table| / 2 in free)
  }

  /** The live handles, with their reps. */
  ghost function Handles(table: seq<Slot>, free: seq<nat>): map<nat, nat> {
    map h: nat | 1 <= h < |table| && h !in free && LiveSlot(table, h) :: Payload(table, h).n - T_FLAG
  }

  lemma HandlesIff(table: seq<Slot>, free: seq<nat>, h: nat)
    requires ChainedTable(table, free)
    ensures h in Handles(table, free) <==> h >= 1 && h !in free && LiveSlot(table, h)
  {
    if h >= 1 && LiveSlot(table, h) {
      assert 2 * h < |table|;
    }
  }

  lemma FreeNotLive(table: seq<Slot>, free: seq<nat>, h: nat)
    requires ChainedTable(table, free)
    ensures h == 0 || h in free ==> h !in Handles(table, free)
  {
    HandlesIff(table, free, h);
  }

  lemma FreeInRange(table: seq<Slot>, free: seq<nat>, h: nat)
    requires ChainedTable(table, free) && h in free
    ensures 1 <= h < T_FLAG && 2 * h < |table| && Flagged(Scope(table, h))
  {
    var i :| 0 <= i < |free| && free[i] == h;
    assert FreeSlot(table, free, i);
    LinkSmall(table, free, i + 1);
  }

  lemma LinkSmall(table: seq<Slot>, free: seq<nat>, i: nat)
    requires ChainedTable(table, free) && i <= |free|
    ensures Link(free, i) < T_FLAG
  {
    if i < |free| {
      assert FreeSlot(table, free, i);
    }
  }

  /** Every handle but `f` keeps its cells. */
  ghost predicate SameExcept(table: seq<Slot>, table': seq<Slot>, f: nat) {
    forall h: nat :: h >= 1 && h != f ==> Scope(table', h) == Scope(table, h) && Payload(table', h) == Payload(table, h)
  }

  lemma HandlesChanged(table: seq<Slot>, free: seq<nat>, table': seq<Slot>, free': seq<nat>, f: nat)
    requires ChainedTable(table, free) && ChainedTable(table', free') && SameExcept(table, table', f)
    requires forall h :: h != f ==> (h in free <==> h in free')
    ensures forall h :: h != f ==> (h in Handles(table', free') <==> h in Handles(table, free))
    ensures forall h :: h != f && h in Handles(table, free) ==> Handles(table', free')[h] == Handles(table, free)[h]
  {
    forall h: nat | h != f
      ensures h in Handles(table', free') <==> h in Handles(table, free)
    {
      HandlesIff(table, free, h);
      HandlesIff(table', free', h);
    }
  }

  /** `rscTableCreateOwn` on an empty free chain. */
  function PushOwn(table: seq<Slot>, rep: Small): seq<Slot> {
    table + [Bits(0)] + [Bits(WithFlag(rep))]
  }

  /** `rscTableCreateOwn` reusing slot `f`, the head of the free chain. */
  function ReuseOwn(table: seq<Slot>, f: nat, rep: Small): seq<Slot> {
    Write(Write(Write(table, 0, Read(table, 2 * f)), 2 * f, Bits(0)), 2 * f + 1, Bits(WithFlag(rep)))
  }

  /** `rscTableRemove` of an accepted handle. */
  function Unlink(table: seq<Slot>, h: Small): seq<Slot> {
    Write(Write(table, 2 * h, Bits(WithFlag(Unflag(Read(table, 0))))), 0, Bits(WithFlag(h)))
  }

  lemma Pushed(table: seq<Slot>, rep: Small)
    requires ChainedTable(table, [])
    ensures var table' := PushOwn(table, rep);
            && ChainedTable(table', []) && |table'| % 2 == 0
            && |table'| / 2 - 1 >= 1 && |table'| / 2 - 1 !in Handles(table, [])
            && Handles(table', []) == Handles(table, [])[|table'| / 2 - 1 := rep]
  {
    var table' := PushOwn(table, rep);
    var n := |table| / 2;
    assert |table| == 2 * n;
    assert SameExcept(table, table', n);
    assert LiveSlot(table', n);
    HandlesIff(table', [], n);
    HandlesChanged(table, [], table', [], n);
  }

  lemma ReusedOwn(table: seq<Slot>, free: seq<nat>, rep: Small)
    requires ChainedTable(table, free) && free != []
    ensures var f, table' := free[0], ReuseOwn(table, free[0], rep);
            && f >= 1 && ChainedTable(table', free[1..])
            && f !in Handles(table, free)
            && Handles(table', free[1..]) == Handles(table, free)[f := rep]
  {
    var f, free' := free[0], free[1..];
    var table' := ReuseOwn(table, f, rep);
    assert free == [f] + free' && f !in free';
    assert FreeSlot(table, free, 0);
    ReusedCells(table, f, rep);
    forall i | 0 <= i < |free'| ensures FreeSlot(table', free', i) {
      assert FreeSlot(table, free, i + 1) && free'[i] != f;
    }
    forall h: nat | h >= 1 && h !in free' ensures LiveSlot(table', h) || NeverIssued(table', h) {
      if h != f {
        assert h !in free;
        assert LiveSlot(table, h) || NeverIssued(table, h);
      }
    }
    HandlesIff(table', free', f);
    HandlesChanged(table, free, table', free', f);
  }

  lemma ReusedCells(table: seq<Slot>, f: nat, rep: Small)
    requires |table| >= 2 && f >= 1 && 2 * f < |table|
    ensures var table' := ReuseOwn(table, f, rep);
            && SameExcept(table, table', f) && LiveSlot(table', f) && Payload(table', f).n == T_FLAG + rep
            && table'[0] == table[2 * f] && table'[1] == table[1]
            && |table'| == if 2 * f + 1 < |table| then |table| else 2 * f + 2
  {
    var t1 := Write(table, 0, Read(table, 2 * f));
    var t2 := Write(t1, 2 * f, Bits(0));
    var t3 := Write(t2, 2 * f + 1, Bits(WithFlag(rep)));
    WriteReads(table, 0, Read(table, 2 * f));
    WriteReads(t1, 2 * f, Bits(0));
    WriteReads(t2, 2 * f + 1, Bits(WithFlag(rep)));
    assert Read(t3, 0) == Read(t2, 0) == Read(t1, 0);
    assert Read(t3, 1) == Read(t2, 1) == Read(t1, 1) == Read(table, 1);
  }

  lemma Unlinked(table: seq<Slot>, free: seq<nat>, h: Small)
    requires ChainedTable(table, free) && h >= 1 && h !in free
    ensures ChainedTable(Unlink(table, h), [h] + free)
    ensures Handles(Unlink(table, h), [h] + free) == Handles(table, free) - {h}
  {
    var table', free' := Unlink(table, h), [h] + free;
    LinkSmall(table, free, 0);
    UnlinkedCells(table, h);
    forall i | 0 <= i < |free'| ensures FreeSlot(table', free', i) {
      if i > 0 {
        assert FreeSlot(table, free, i - 1) && free'[i] == free[i - 1];
      }
    }
    assert |table'| % 2 == 1 ==> |table'| / 2 in free';
    HandlesChanged(table, free, table', free', h);
  }

  lemma UnlinkedCells(table: seq<Slot>, h: Small)
    requires |table| >= 2 && h >= 1 && Flagged(table[0])
    ensures var table' := Unlink(table, h);
            && SameExcept(table, table', h) && Scope(table', h) == table[0]
            && table'[0] == Bits(T_FLAG + h) && table'[1] == table[1]
            && |table'| == if 2 * h < |table| then |table| else 2 * h + 1
  {
    var t1 := Write(table, 2 * h, Bits(WithFlag(Unflag(Read(table, 0)))));
    var t2 := Write(t1, 0, Bits(WithFlag(h)));
    WriteReads(table, 2 * h, Bits(WithFlag(Unflag(Read(table, 0)))));
    WriteReads(t1, 0, Bits(WithFlag(h)));
    assert Read(t2, 1) == Read(t1, 1) == Read(table, 1);
    assert Read(t2, 0) == Bits(WithFlag(h));
  }

  // ----- handles and captured objects ----------------------------------------------------

  /** `live` and `owner` are inverse to each other, so both are one to one. */
  ghost predicate Inverse(live: map<nat, nat>, owner: map<nat, nat>) {
    && (forall h :: h in live ==> live[h] in owner && owner[live[h]] == h)
    && (forall rep :: rep in owner ==> owner[rep] in live && live[owner[rep]] == rep)
  }

  /**
   Live handles and captured objects correspond one to one, and each of the `count`
   objects ever captured is either captured still or was disposed, once.
   */
  ghost predicate Balanced<Obj>(count: nat, captured: map<nat, Obj>, disposed: seq<nat>, live: map<nat, nat>,
                                owner: map<nat, nat>)
  {
    && Inverse(live, owner) && owner.Keys == captured.Keys
    && Partitioned(Slots(count, captured, disposed))
  }

  lemma CaptureBalanced<Obj>(count: nat, captured: map<nat, Obj>, disposed: seq<nat>, live: map<nat, nat>,
                             owner: map<nat, nat>, handle: nat, obj: Obj)
    requires Balanced(count, captured, disposed, live, owner) && handle !in live
    ensures Balanced(count + 1, captured[count + 1 := obj], disposed, live[handle := count + 1],
            owner[count + 1 := handle])
  {
    assert count + 1 !in captured;
  }

  lemma DropBalanced<Obj>(count: nat, captured: map<nat, Obj>, disposed: seq<nat>, live: map<nat, nat>,
                          owner: map<nat, nat>, handle: nat)
    requires Balanced(count, captured, disposed, live, owner) && handle in live
    ensures var rep := live[handle];
            rep in captured && Balanced(count, captured - {rep}, [rep] + disposed, live - {handle}, owner - {rep})
  {
    RemovePartitioned(Slots(count, captured, disposed), live[handle]);
  }

  // ----- how often an object is disposed ---------------------------------------------------

  ghost function Count<T>(s: seq<T>, x: T): nat {
    if s == [] then 0 else Count(s[..|s| - 1], x) + if s[|s| - 1] == x then 1 else 0
  }

  predicate InRange<Obj>(captures: seq<Obj>, reps: seq<nat>) {
    forall i :: 0 <= i < |reps| ==> 1 <= reps[i] <= |captures|
  }

  /** `reps` were dropped, each once, after the objects `captures` had been captured as 1, 2, and so on. */
  predicate Dropped<Obj>(captures: seq<Obj>, reps: seq<nat>) {
    NoRepeats(reps) && InRange(captures, reps)
  }

  /** The objects behind the reps, in the same order. */
  ghost function ObjectsOf<Obj>(captures: seq<Obj>, reps: seq<nat>): (objs: seq<Obj>)
    requires InRange(captures, reps)
    ensures |objs| == |reps| && forall i :: 0 <= i < |reps| ==> objs[i] == captures[reps[i] - 1]
  {
    seq(|reps|, i requires 0 <= i < |reps| => captures[reps[i] - 1])
  }

  ghost predicate IsCapture<Obj>(captures: seq<Obj>, r: nat, x: Obj) {
    1 <= r <= |captures| && captures[r - 1] == x
  }

  /** The captures of `x`, and those among `reps`. */
  ghost function CapturesOf<Obj>(captures: seq<Obj>, x: Obj): set<nat> {
    set r: nat | r <= |captures| && IsCapture(captures, r, x)
  }

  ghost function DropsOf<Obj>(captures: seq<Obj>, reps: seq<nat>, x: Obj): set<nat> {
    set r | r in reps && IsCapture(captures, r, x)
  }

  lemma {:induction false} CountCaptures<Obj>(captures: seq<Obj>, x: Obj)
    ensures Count(captures, x) == |CapturesOf(captures, x)|
  {
    var n := |captures|;
    if n == 0 {
      assert CapturesOf(captures, x) == {};
    } else {
      CountCaptures(captures[..n - 1], x);
      assert Count(captures, x) == Count(captures[..n - 1], x) + if captures[n - 1] == x then 1 else 0;
      hide Count, CapturesOf;
      CapturesLast(captures, x);
    }
  }

  lemma CapturesLast<Obj>(captures: seq<Obj>, x: Obj)
    requires captures != []
    ensures var n, before := |captures|, CapturesOf(captures[..|captures| - 1], x);
            && n !in before && CapturesOf(captures, x) == before + if captures[n - 1] == x then {n} else {}
  {
    var n, fewer := |captures|, captures[..|captures| - 1];
    assert forall r: nat :: r < n ==> (IsCapture(captures, r, x) <==> IsCapture(fewer, r, x));
  }

  /** An object is disposed as often as captures of it are dropped. */
  lemma {:induction false} CountDrops<Obj>(captures: seq<Obj>, reps: seq<nat>, x: Obj)
    requires Dropped(captures, reps)
    ensures Count(ObjectsOf(captures, reps), x) == |DropsOf(captures, reps, x)|
  {
    var n := |reps|;
    if n == 0 {
      assert DropsOf(captures, reps, x) == {};
    } else {
      var fewer, last, objs := reps[..n - 1], reps[n - 1], ObjectsOf(captures, reps);
      CountDrops(captures, fewer, x);
      assert objs[..n - 1] == ObjectsOf(captures, fewer);
      assert objs[n - 1] == captures[last - 1];
      assert Count(objs, x) == Count(objs[..n - 1], x) + if objs[n - 1] == x then 1 else 0;
      hide Count, ObjectsOf;
      DropsLast(captures, reps, x);
    }
  }

  lemma DropsLast<Obj>(captures: seq<Obj>, reps: seq<nat>, x: Obj)
    requires Dropped(captures, reps) && reps != []
    ensures var last, before := reps[|reps| - 1], DropsOf(captures, reps[..|reps| - 1], x);
            && last !in before
            && DropsOf(captures, reps, x) == before + if captures[last - 1] == x then {last} else {}
  {
    assert reps == reps[..|reps| - 1] + [reps[|reps| - 1]];
  }

  lemma {:induction false} SmallerSet(a: set<nat>, b: set<nat>)
    requires a <= b
    ensures |a| <= |b|
  {
    if a != {} {
      var r :| r in a;
      SmallerSet(a - {r}, b - {r});
    }
  }

  /** No object is disposed more often than it was captured. */
  lemma DisposalsBounded<Obj>(captures: seq<Obj>, reps: seq<nat>, x: Obj)
    requires Dropped(captures, reps)
    ensures Count(ObjectsOf(captures, reps), x) <= Count(captures, x)
  {
    CountCaptures(captures, x);
    CountDrops(captures, reps, x);
    SmallerSet(DropsOf(captures, reps, x), CapturesOf(captures, x));
  }

  ghost predicate CapturedOnce<Obj>(captures: seq<Obj>) {
    forall i, j :: 0 <= i < j < |captures| ==> captures[i] != captures[j]
  }

  ghost predicate DisposedOnce<Obj>(captures: seq<Obj>) {
    forall reps, x {:trigger Dropped(captures, reps), Count(ObjectsOf(captures, reps), x)} ::
      x in captures && Dropped(captures, reps) ==> Count(ObjectsOf(captures, reps), x) <= 1
  }

  lemma {:induction false} CountOnce<Obj>(captures: seq<Obj>, x: Obj)
    requires CapturedOnce(captures)
    ensures Count(captures, x) <= 1 && (Count(captures, x) == 1 <==> x in captures)
  {
    var n := |captures|;
    if n > 0 {
      assert captures == captures[..n - 1] + [captures[n - 1]];
      CountOnce(captures[..n - 1], x);
    }
  }

  lemma TwoDrops<Obj>(captures: seq<Obj>, i: nat, j: nat)
    requires i < j < |captures| && captures[i] == captures[j]
    ensures Dropped(captures, [i + 1, j + 1]) && Count(ObjectsOf(captures, [i + 1, j + 1]), captures[i]) == 2
  {
    var x, objs := captures[i], ObjectsOf(captures, [i + 1, j + 1]);
    assert objs == [x, x] && objs[..1] == [x];
    assert Count([x], x) == Count([x][..0], x) + 1;
  }

  /** Whatever is dropped, each object is disposed at most once, if and only if none is captured twice. */
  lemma DisposedOnceIff<Obj>(captures: seq<Obj>)
    ensures DisposedOnce(captures) <==> CapturedOnce(captures)
  {
    if CapturedOnce(captures) {
      forall reps, x | x in captures && Dropped(captures, reps) ensures Count(ObjectsOf(captures, reps), x) <= 1 {
        DisposalsBounded(captures, reps, x);
        CountOnce(captures, x);
      }
    } else {
      var i, j :| 0 <= i < j < |captures| && captures[i] == captures[j];
      TwoDrops(captures, i, j);
    }
  }

  /** Each capture keeps its object until it is disposed, and the disposals are those of the dropped captures. */
  ghost predicate Recorded<Obj>(
    captures: seq<Obj>, count: nat, captured: map<nat, Obj>, disposed: seq<nat>, disposals: seq<Obj>)
  {
    && |captures| == count && Dropped(captures, disposed) && disposals == ObjectsOf(captures, disposed)
    && forall r :: r in captured ==> IsCapture(captures, r, captured[r])
  }

  lemma CaptureRecorded<Obj>(
    captures: seq<Obj>, count: nat, captured: map<nat, Obj>, disposed: seq<nat>, disposals: seq<Obj>, obj: Obj)
    requires Recorded(captures, count, captured, disposed, disposals)
    ensures Recorded(captures + [obj], count + 1, captured[count + 1 := obj], disposed, disposals)
  {
    assert ObjectsOf(captures + [obj], disposed) == ObjectsOf(captures, disposed);
  }

  lemma DropRecorded<Obj>(
    captures: seq<Obj>, count: nat, captured: map<nat, Obj>, disposed: seq<nat>, disposals: seq<Obj>, rep: nat)
    requires Recorded(captures, count, captured, disposed, disposals) && rep in captured
    requires Partitioned(Slots(count, captured, disposed))
    ensures 1 <= rep <= |captures| && captured[rep] == captures[rep - 1]
    ensures Recorded(captures, count, captured - {rep}, [rep] + disposed, [captures[rep - 1]] + disposals)
  {
    assert IsCapture(captures, rep, captured[rep]) && rep !in disposed;
    var reps := [rep] + disposed;
    assert InRange(captures, reps);
    assert ObjectsOf(captures, reps) == [captures[rep - 1]] + disposals;
  }

  /**
   A host that hands out the same object twice: it is captured twice, and dropping both
   handles disposes it twice.
   */
  method SameObjectTwice<Obj>(obj: Obj) returns (t: ResourceTable<Obj>)
    ensures t.Valid() && t.live == map[] && t.disposals == [obj, obj]
  {
    hide ChainedTable, Handles, Balanced, Recorded;
    t := new ResourceTable();
    var first := t.Capture(obj);
    var second := t.Capture(obj);
    assert t.captures == [obj, obj];
    var _ := t.Drop(first);
    var _ := t.Drop(second);
  }

  // ----- the table with its captured objects ---------------------------------------------

  datatype Removed = Removed(rep: nat, own: bool)

  class ResourceTable<Obj> {
    var table: seq<Slot>
    var createdReps: set<nat>
    var captureTable: map<nat, Obj>
    var captureCnt: nat
    /** The free chain, and the reps disposed so far, latest first. */
    ghost var free: seq<nat>
    ghost var disposed: seq<nat>
    /** The handle of each captured rep. */
    ghost var owner: map<nat, nat>

    /** The live handles with their reps. */
    ghost var live: map<nat, nat>

    /** The objects captured so far, and those disposed, latest first. */
    ghost var captures: seq<Obj>
    ghost var disposals: seq<Obj>

    ghost predicate TableValid()
      reads this
    {
      ChainedTable(table, free) && live == Handles(table, free)
    }

    ghost predicate Valid()
      reads this
    {
      && TableValid() && Balanced(captureCnt, captureTable, disposed, live, owner)
      && Recorded(captures, captureCnt, captureTable, disposed, disposals)
    }

    constructor ()
      ensures Valid() && live == map[] && captureTable == map[] && captureCnt == 0
      ensures disposed == [] && captures == [] && disposals == [] && free == [] && |table| == 2
    {
      table, createdReps, captureTable, captureCnt := [Bits(T_FLAG), Bits(0)], {}, map[], 0;
      free, disposed, owner, live, captures, disposals := [], [], map[], map[], [], [];
    }

    method CreateOwn(rep: Small) returns (handle: nat)
      requires TableValid()
      modifies this`table, this`createdReps, this`free, this`live
      ensures TableValid()
      ensures handle >= 1 && handle !in old(live) && live == old(live)[handle := rep]
      ensures old(free) != [] ==> handle == old(free)[0] && free == old(free)[1..]
      ensures old(free) == [] ==> handle == |old(table)| / 2 && |table| == |old(table)| + 2 && free == []
      ensures createdReps == old(createdReps) + {rep}
    {
      var first := FirstFree();
      createdReps := createdReps + {rep};
      if first == 0 {
        handle := Extend(rep);
      } else {
        handle := Reuse(first, rep);
      }
    }

    /** `table[0] & ~T_FLAG`: the head of the free chain, or 0. */
    method FirstFree() returns (first: nat)
      requires TableValid()
      ensures first == Link(free, 0) && (first == 0 <==> free == [])
    {
      LinkSmall(table, free, 0);
      if free != [] {
        assert FreeSlot(table, free, 0);
      }
      first := Unflag(table[0]);
    }

    /** No slot is free: the table grows by one. */
    method Extend(rep: Small) returns (handle: nat)
      requires TableValid() && free == []
      modifies this`table, this`live
      ensures TableValid() && handle >= 1 && handle !in old(live) && live == old(live)[handle := rep]
      ensures handle == |old(table)| / 2 && |table| == |old(table)| + 2
    {
      Pushed(table, rep);
      hide ChainedTable, Handles;
      ghost var before := table;
      table := table + [Bits(0)];
      table := table + [Bits(WithFlag(rep))];
      assert table == PushOwn(before, rep);
      handle := |table| / 2 - 1;
      live := live[handle := rep];
    }

    /** The slot freed last is used again. */
    method Reuse(first: nat, rep: Small) returns (handle: nat)
      requires TableValid() && free != [] && first == free[0]
      modifies this`table, this`free, this`live
      ensures TableValid() && handle >= 1 && handle !in old(live) && live == old(live)[handle := rep]
      ensures handle == first && free == old(free)[1..]
    {
      ReusedOwn(table, free, rep);
      hide ChainedTable, Handles;
      ghost var before := table;
      table := Write(table, 0, Read(table, 2 * first));
      table := Write(table, 2 * first, Bits(0));
      table := Write(table, 2 * first + 1, Bits(WithFlag(rep)));
      assert table == ReuseOwn(before, first, rep);
      free := free[1..];
      live := live[first := rep];
      handle := first;
    }

    /**
     Rejects exactly handle 0 and the handles on the free chain.  A live handle gives
     its rep; one that was never issued is accepted, owns nothing, and becomes free.
     */
    method Remove(handle: Small) returns (r: Option<Removed>)
      requires TableValid()
      modifies this`table, this`free, this`live
      ensures TableValid()
      ensures r.None? <==> handle == 0 || handle in old(free)
      ensures r.None? ==> table == old(table) && free == old(free)
      ensures r.Some? ==> free == [handle] + old(free) && live == old(live) - {handle}
      ensures r.Some? ==> r.value == if handle in old(live) then Removed(old(live)[handle], true) else Removed(0, false)
    {
      HandlesIff(table, free, handle);
      LinkSmall(table, free, 0);
      if handle in free {
        FreeInRange(table, free, handle);
      } else if handle >= 1 {
        assert LiveSlot(table, handle) || NeverIssued(table, handle);
      }
      var scope := Read(table, 2 * handle);
      var val := Read(table, 2 * handle + 1);
      var own := Flagged(val);
      var rep := Unflag(val);
      if val == Bits(0) || Flagged(scope) {
        return None;
      }
      Unlinked(table, free, handle);
      table := Write(table, 2 * handle, Bits(WithFlag(table[0].n)));
      table := Write(table, 0, Bits(WithFlag(handle)));
      free := [handle] + free;
      live := live - {handle};
      return Some(Removed(rep, own));
    }

    /** A host object without a preset rep enters the component. */
    method Capture(obj: Obj) returns (handle: nat)
      requires Valid() && captureCnt + 1 < T_FLAG
      modifies this
      ensures Valid()
      ensures handle !in old(live) && live == old(live)[handle := captureCnt]
      ensures captureCnt == old(captureCnt) + 1 && captureTable == old(captureTable)[captureCnt := obj]
      ensures disposed == old(disposed) && disposals == old(disposals) && captures == old(captures) + [obj]
      ensures old(free) == [] ==> handle == |old(table)| / 2 && |table| == |old(table)| + 2 && free == []
    {
      hide ChainedTable, Handles, Partitioned, Inverse, Recorded, Balanced;
      CaptureRecorded(captures, captureCnt, captureTable, disposed, disposals, obj);
      ghost var count, captured, before := captureCnt, captureTable, live;
      captureCnt := captureCnt + 1;
      var rep := captureCnt;
      captureTable := captureTable[rep := obj];
      handle := CreateOwn(rep);
      CaptureBalanced(count, captured, disposed, before, owner, handle, obj);
      owner := owner[rep := handle];
      captures := captures + [obj];
    }

    /** The object behind an owned handle, just removed from `before`, is disposed and let go. */
    method Dispose(rep: nat, ghost handle: nat, ghost before: map<nat, nat>)
      requires Balanced(captureCnt, captureTable, disposed, before, owner)
      requires handle in before && before[handle] == rep && live == before - {handle}
      requires Recorded(captures, captureCnt, captureTable, disposed, disposals)
      modifies this`captureTable, this`disposed, this`owner, this`disposals
      ensures Balanced(captureCnt, captureTable, disposed, live, owner)
      ensures Recorded(captures, captureCnt, captureTable, disposed, disposals)
      ensures disposed == [rep] + old(disposed) && captureTable == old(captureTable) - {rep}
      ensures 1 <= rep <= |captures| && disposals == [captures[rep - 1]] + old(disposals)
    {
      DropBalanced(captureCnt, captureTable, disposed, before, owner, handle);
      DropRecorded(captures, captureCnt, captureTable, disposed, disposals, rep);
      hide Recorded, Balanced;
      if rep in captureTable {
        disposals := [captureTable[rep]] + disposals;
        disposed := [rep] + disposed;
        captureTable := captureTable - {rep};
        owner := owner - {rep};
      }
    }

    /**
     The guest drops a handle.  The object behind a live handle is disposed, and no
     other is; any other handle disposes nothing.
     */
    method Drop(handle: Small) returns (ok: bool)
      requires Valid()
      modifies this
      ensures Valid()
      ensures !ok <==> handle == 0 || handle in old(free)
      ensures captureCnt == old(captureCnt) && captures == old(captures) && live == old(live) - {handle}
      ensures handle in old(live) ==>
                var rep := old(live)[handle];
                && disposed == [rep] + old(disposed) && captureTable == old(captureTable) - {rep}
                && 1 <= rep <= |captures| && disposals == [captures[rep - 1]] + old(disposals)
      ensures handle !in old(live) ==>
                disposed == old(disposed) && captureTable == old(captureTable) && disposals == old(disposals)
    {
      hide ChainedTable, Handles, Partitioned, Inverse, Recorded, Balanced;
      ghost var before := live;
      FreeNotLive(table, free, handle);
      var entry := Remove(handle);
      if entry.None? || !entry.value.own {
        assert before - {handle} == before;
        return entry.Some?;
      }
      Dispose(entry.value.rep, handle, before);
      return true;
    }
  }
}
