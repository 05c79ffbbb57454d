/**
 The slot allocator behind component handles.

 `RepTable` keeps its free list inside the cells it manages: cell 0 is the head,
 the odd cell of a freed slot is the link.  It refines `Slots`, a partial map from
 reps to values together with a stack of freed reps.
 */
module RepTables {
  import opened Wrappers

  datatype RepError = ZeroRep | EmptyTable | OutOfRange | DoubleRemoval | CorruptFreelist

  // ----- the abstract allocator ------------------------------------------------

  /** Reps `1..=top` have been issued; `free` is the stack of those given back, top first. */
  datatype Slots<T> = Slots(top: nat, live: map<nat, T>, free: seq<nat>)

  predicate NoRepeats(s: seq<nat>) {
    forall i, j :: 0 <= i < j < |s| ==> s[i] != s[j]
  }

  /** Every issued rep is either live or on the free stack, never both, never twice. */
  ghost predicate Partitioned<T>(s: Slots<T>) {
    && NoRepeats(s.free)
    && (forall r :: r in s.live ==> 1 <= r <= s.top && r !in s.free)
    && (forall r :: r in s.free ==> 1 <= r <= s.top)
    && (forall r :: 1 <= r <= s.top ==> r in s.live || r in s.free)
  }

  function InsertRep<T>(s: Slots<T>): nat {
    if s.free == [] then s.top + 1 else s.free[0]
  }

  function AfterInsert<T>(s: Slots<T>, val: T): Slots<T> {
    if s.free == [] then Slots(s.top + 1, s.live[s.top + 1 := val], [])
    else Slots(s.top, s.live[s.free[0] := val], s.free[1..])
  }

  function AfterRemove<T>(s: Slots<T>, rep: nat): Slots<T> {
    Slots(s.top, s.live - {rep}, [rep] + s.free)
  }

  /** A new rep was not live, and issuing it disturbs no other entry. */
  lemma InsertFresh<T>(s: Slots<T>, val: T)
    requires Partitioned(s)
    ensures InsertRep(s) !in s.live && InsertRep(s) > 0
    ensures AfterInsert(s, val).live == s.live[InsertRep(s) := val]
    ensures Partitioned(AfterInsert(s, val))
  {
    var s' := AfterInsert(s, val);
    if s.free != [] {
      assert s.free[0] in s.free && s.free == [s.free[0]] + s'.free;
      assert forall r :: r in s'.free ==> r in s.free && r != s.free[0];
    }
  }

  lemma RemovePartitioned<T>(s: Slots<T>, rep: nat)
    requires Partitioned(s) && rep in s.live
    ensures Partitioned(AfterRemove(s, rep))
  {
  }

  /** Removing and inserting again reissues the same rep and restores the stack. */
  lemma RemoveThenInsert<T>(s: Slots<T>, rep: nat, val: T)
    requires Partitioned(s) && rep in s.live
    ensures InsertRep(AfterRemove(s, rep)) == rep
    ensures AfterInsert(AfterRemove(s, rep), val) == s.(live := s.live[rep := val])
  {
    var s' := AfterRemove(s, rep);
    assert s'.free[1..] == s.free;
    assert s'.live[rep := val] == s.live[rep := val];
  }

  /** Inserting and removing again restores the live entries. */
  lemma InsertThenRemove<T>(s: Slots<T>, val: T)
    requires Partitioned(s)
    ensures AfterRemove(AfterInsert(s, val), InsertRep(s)).live == s.live
  {
    InsertFresh(s, val);
  }

  /** Live and freed reps together are exactly the issued ones. */
  lemma Census<T>(s: Slots<T>)
    requires Partitioned(s)
    ensures |s.live| + |s.free| == s.top
  {
    CountElems(s.free);
    CountIssued(s.top);
    assert s.live.Keys + Elems(s.free) == Issued(s.top);
    assert s.live.Keys !! Elems(s.free);
    assert |s.live.Keys| == |s.live|;
  }

  function Elems(s: seq<nat>): set<nat> {
    if s == [] then {} else {s[0]} + Elems(s[1..])
  }

  function Issued(n: nat): set<nat> {
    if n == 0 then {} else Issued(n - 1) + {n}
  }

  lemma {:induction false} CountElems(s: seq<nat>)
    ensures forall r :: r in Elems(s) <==> r in s
    ensures NoRepeats(s) ==> |Elems(s)| == |s|
  {
    if s != [] {
      CountElems(s[1..]);
      assert s == [s[0]] + s[1..];
      assert NoRepeats(s) ==> NoRepeats(s[1..]) && s[0] !in s[1..];
    }
  }

  lemma {:induction false} CountIssued(n: nat)
    ensures |Issued(n)| == n
    ensures forall r: nat :: r in Issued(n) <==> 1 <= r <= n
  {
    if n > 0 {
      CountIssued(n - 1);
    }
  }

  // ----- runs --------------------------------------------------------------------

  datatype Op<T> = Insert(val: T) | Remove(rep: nat)

  /** One operation; a removal of a rep that is not live throws and changes nothing. */
  function Step<T>(s: Slots<T>, op: Op<T>): Slots<T> {
    match op
    case Insert(val) => AfterInsert(s, val)
    case Remove(rep) => if rep in s.live then AfterRemove(s, rep) else s
  }

  function Run<T>(s: Slots<T>, ops: seq<Op<T>>): Slots<T>
    decreases |ops|
  {
    if ops == [] then s else Run(Step(s, ops[0]), ops[1..])
  }

  /** In every run a live entry stays as it is until it is itself removed. */
  lemma {:induction false} EntriesKept<T>(s: Slots<T>, ops: seq<Op<T>>, rep: nat)
    requires Partitioned(s) && rep in s.live && Remove(rep) !in ops
    ensures Partitioned(Run(s, ops))
    ensures rep in Run(s, ops).live && Run(s, ops).live[rep] == s.live[rep]
    decreases |ops|
  {
    if ops != [] {
      match ops[0] {
        case Insert(val) => InsertFresh(s, val);
        case Remove(r) => if r in s.live { RemovePartitioned(s, r); }
      }
      EntriesKept(Step(s, ops[0]), ops[1..], rep);
    }
  }

  // ----- the concrete table --------------------------------------------------------

  /** What a cell of the array can hold. */
  datatype Cell<T> = Num(n: nat) | Null | FREE | Entry(val: T)

  function Even<T>(data: seq<Cell<T>>, r: nat): Cell<T>
    requires 2 * r < |data|
  {
    data[2 * r]
  }

  function Odd<T>(data: seq<Cell<T>>, r: nat): Cell<T>
    requires 2 * r + 1 < |data|
  {
    data[2 * r + 1]
  }

  function Link(free: seq<nat>, i: nat): nat
    requires i <= |free|
  {
    if i < |free| then free[i] else 0
  }

  /**
   The chain from cell 0 through the odd cells visits `free` and ends in 0.  It is
   acyclic (no repeats) and visits exactly the slots marked FREE.
   */
  ghost predicate Chained<T>(data: seq<Cell<T>>, free: seq<nat>) {
    && |data| >= 2 && |data| % 2 == 0
    && data[0] == Num(Link(free, 0)) && data[1] == Null
    && NoRepeats(free)
    && (forall i :: 0 <= i < |free| ==> FreeAt(data, free, i))
    && (forall r :: 1 <= r < |data| / 2 && r !in free ==> Even(data, r).Entry? && Odd(data, r) == Null)
  }

  ghost predicate FreeAt<T>(data: seq<Cell<T>>, free: seq<nat>, i: nat)
    requires i < |free|
  {
    1 <= free[i] < |data| / 2 && Even(data, free[i]) == FREE && Odd(data, free[i]) == Num(Link(free, i + 1))
  }

  ghost function LiveOf<T>(data: seq<Cell<T>>, free: seq<nat>): map<nat, T>
    requires Chained(data, free)
  {
    map r: nat | 1 <= r < |data| / 2 && r !in free :: Even(data, r).val
  }

  ghost function SlotsOf<T>(data: seq<Cell<T>>, free: seq<nat>): Slots<T>
    requires Chained(data, free)
  {
    Slots(|data| / 2 - 1, LiveOf(data, free), free)
  }

  lemma SlotsOfPartitioned<T>(data: seq<Cell<T>>, free: seq<nat>)
    requires Chained(data, free)
    ensures Partitioned(SlotsOf(data, free))
  {
    forall r | r in free ensures 1 <= r < |data| / 2 {
      var i :| 0 <= i < |free| && free[i] == r;
      assert FreeAt(data, free, i);
    }
  }

  lemma Extended<T>(data: seq<Cell<T>>, val: T)
    requires Chained(data, [])
    ensures var data' := data + [Entry(val)] + [Null];
            Chained(data', []) && SlotsOf(data', []) == AfterInsert(SlotsOf(data, []), val)
  {
    var data' := data + [Entry(val)] + [Null];
    assert forall r :: 1 <= r < |data| / 2 ==> Even(data', r) == Even(data, r) && Odd(data', r) == Odd(data, r);
    assert LiveOf(data', []) == LiveOf(data, [])[|data| / 2 := val];
  }

  lemma Reused<T>(data: seq<Cell<T>>, free: seq<nat>, val: T)
    requires Chained(data, free) && free != []
    ensures var f := free[0];
            && 1 <= f < |data| / 2 && Even(data, f) == FREE
            && var data' := data[0 := Odd(data, f)][2 * f := Entry(val)][2 * f + 1 := Null];
            && Chained(data', free[1..]) && SlotsOf(data', free[1..]) == AfterInsert(SlotsOf(data, free), val)
  {
    ReusedChain(data, free, val);
    var f := free[0];
    var data' := data[0 := Odd(data, f)][2 * f := Entry(val)][2 * f + 1 := Null];
    assert forall r :: 1 <= r < |data| / 2 && r != f ==> Even(data', r) == Even(data, r);
    assert free == [f] + free[1..];
    assert f !in free[1..];
    hide Chained;
    assert LiveOf(data', free[1..]) == LiveOf(data, free)[f := val];
  }

  lemma ReusedChain<T>(data: seq<Cell<T>>, free: seq<nat>, val: T)
    requires Chained(data, free) && free != []
    ensures var f := free[0];
            && 1 <= f < |data| / 2 && Even(data, f) == FREE
            && Chained(data[0 := Odd(data, f)][2 * f := Entry(val)][2 * f + 1 := Null], free[1..])
  {
    var f := free[0];
    assert FreeAt(data, free, 0);
    var data' := data[0 := Odd(data, f)][2 * f := Entry(val)][2 * f + 1 := Null];
    var free' := free[1..];
    assert free == [f] + free';
    assert forall r :: 1 <= r < |data| / 2 && r != f ==>
        Even(data', r) == Even(data, r) && Odd(data', r) == Odd(data, r);
    forall i | 0 <= i < |free'| ensures FreeAt(data', free', i) {
      assert FreeAt(data, free, i + 1) && free'[i] != f;
    }
  }

  lemma Freed<T>(data: seq<Cell<T>>, free: seq<nat>, rep: nat)
    requires Chained(data, free) && rep in LiveOf(data, free)
    ensures var data' := data[2 * rep := FREE][2 * rep + 1 := data[0]][0 := Num(rep)];
            && Chained(data', [rep] + free)
            && SlotsOf(data', [rep] + free) == AfterRemove(SlotsOf(data, free), rep)
  {
    var data' := data[2 * rep := FREE][2 * rep + 1 := data[0]][0 := Num(rep)];
    var free' := [rep] + free;
    assert forall r :: 1 <= r < |data| / 2 && r != rep ==>
        Even(data', r) == Even(data, r) && Odd(data', r) == Odd(data, r);
    forall i | 0 <= i < |free'| ensures FreeAt(data', free', i) {
      if i > 0 {
        assert FreeAt(data, free, i - 1) && free'[i] == free[i - 1];
      }
    }
    assert LiveOf(data', free') == LiveOf(data, free) - {rep};
  }

  class RepTable<T> {
    var data: seq<Cell<T>>
    var size: nat
    /** The freed reps in the order of the chain from cell 0. */
    ghost var free: seq<nat>

    ghost predicate Valid()
      reads this
    {
      Chained(data, free) && size + |free| == |data| / 2 - 1
    }

    ghost function Live(): map<nat, T>
      requires Valid()
      reads this
    {
      LiveOf(data, free)
    }

    ghost function Abs(): Slots<T>
      requires Valid()
      reads this
    {
      SlotsOf(data, free)
    }

    constructor ()
      ensures Valid() && Abs() == Slots(0, map[], [])
    {
      data, size, free := [Num(0), Null], 0, [];
    }

    /** The "corrupt freelist" error is not among the outcomes. */
    method Insert(val: T) returns (r: Result<nat, RepError>)
      requires Valid()
      modifies this
      ensures Valid()
      ensures r == Ok(InsertRep(old(Abs())))
      ensures Abs() == AfterInsert(old(Abs()), val)
    {
      if free != [] {
        Reused(data, free, val);
      } else {
        Extended(data, val);
      }
      var freeIdx := data[0].n;
      if freeIdx == 0 {
        data := data + [Entry(val)];
        data := data + [Null];
        var rep := |data| / 2 - 1;
        size := size + 1;
        return Ok(rep);
      }
      var placementIdx := 2 * freeIdx;
      if data[placementIdx] != FREE {
        return Err(CorruptFreelist);
      }
      data := data[0 := data[placementIdx + 1]];
      data := data[placementIdx := Entry(val)];
      data := data[placementIdx + 1 := Null];
      size := size + 1;
      free := free[1..];
      return Ok(freeIdx);
    }

    /** `None` stands for `undefined`. */
    method Get(rep: nat) returns (r: Result<Option<T>, RepError>)
      requires Valid()
      ensures rep == 0 ==> r == Err(ZeroRep)
      ensures rep != 0 ==> r == Ok(if rep in Live() then Some(Live()[rep]) else None)
    {
      if rep == 0 {
        return Err(ZeroRep);
      }
      CellKinds(rep);
      var baseIdx := 2 * rep;
      if baseIdx >= |data| || data[baseIdx] == FREE {
        return Ok(None);
      }
      return Ok(Some(data[baseIdx].val));
    }

    /** The values stored are objects, so an entry is never falsy. */
    method Contains(rep: nat) returns (r: Result<bool, RepError>)
      requires Valid()
      ensures rep == 0 ==> r == Err(ZeroRep)
      ensures rep != 0 ==> r == Ok(rep in Live())
    {
      if rep == 0 {
        return Err(ZeroRep);
      }
      CellKinds(rep);
      var baseIdx := 2 * rep;
      return Ok(baseIdx < |data| && data[baseIdx] != FREE);
    }

    /** Succeeds exactly on live reps; a failed removal changes nothing. */
    method Remove(rep: nat) returns (r: Result<T, RepError>)
      requires Valid()
      modifies this
      ensures Valid()
      ensures rep in old(Live()) ==> r == Ok(old(Live())[rep]) && Abs() == AfterRemove(old(Abs()), rep)
      ensures rep !in old(Live()) ==> Abs() == old(Abs()) && r.Err?
      ensures r == Err(ZeroRep) <==> rep == 0
      ensures r == Err(DoubleRemoval) <==> rep in old(free)
      ensures r == Err(EmptyTable) <==> rep != 0 && old(Abs()).top == 0
      ensures r == Err(OutOfRange) <==> rep > old(Abs()).top > 0
    {
      CellKinds(rep);
      if rep == 0 {
        return Err(ZeroRep);
      }
      if |data| == 2 {
        return Err(EmptyTable);
      }
      var baseIdx := 2 * rep;
      if baseIdx >= |data| {
        return Err(OutOfRange);
      }
      var val := data[baseIdx];
      if val == FREE {
        return Err(DoubleRemoval);
      }
      Freed(data, free, rep);
      Census(Abs());
      data := data[baseIdx := FREE];
      data := data[baseIdx + 1 := data[0]];
      data := data[0 := Num(rep)];
      size := size - 1;
      free := [rep] + free;
      return Ok(val.val);
    }

    method Size() returns (n: nat)
      requires Valid()
      ensures n == |Live()|
    {
      SlotsOfPartitioned(data, free);
      Census(Abs());
      return size;
    }

    /** The marker in a rep's even cell tells whether it is freed or live. */
    lemma CellKinds(rep: nat)
      requires Valid()
      ensures Partitioned(Abs())
      ensures 1 <= rep < |data| / 2 ==> (data[2 * rep] == FREE <==> rep in free)
      ensures rep in Live() ==> data[2 * rep] == Entry(Live()[rep])
      ensures rep in Live() <==> 1 <= rep < |data| / 2 && rep !in free
    {
      SlotsOfPartitioned(data, free);
      if rep in free {
        var i :| 0 <= i < |free| && free[i] == rep;
        assert FreeAt(data, free, i);
      } else if 1 <= rep < |data| / 2 {
        assert Even(data, rep).Entry?;
      }
    }
  }
}
