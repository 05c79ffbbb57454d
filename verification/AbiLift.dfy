/**
 Loading: the `_liftFlat*` functions reading a value out of linear memory.

 They advance `storagePtr` and charge `storageLen`, a budget that list loading
 repurposes and that records and tuples save and restore.  On every memory, also
 one holding nonsense, lifting an aligned slot agrees with the reference loader:
 the threaded context changes nothing, and the budget checks never fail.
 */
module AbiLift {
  import opened Wrappers
  import opened Utf8
  import opened AbiLayout
  import opened AbiMemory
  import opened AbiLower

  datatype LiftError = OutOfBounds | BadDiscriminant | MisalignedList | BudgetExceeded

  type Lifted = Result<Val, LiftError>

  /** The outcome `r` is the one the reference loader prescribes, and no budget check failed. */
  ghost predicate Agrees(r: Lifted, loaded: Option<Val>) {
    match r
    case Ok(v) => loaded == Some(v)
    case Err(e) => loaded == None && e != BudgetExceeded
  }

  ghost predicate AllAgree(r: Result<seq<Val>, LiftError>, loaded: Option<seq<Val>>) {
    match r
    case Ok(vs) => loaded == Some(vs)
    case Err(e) => loaded == None && e != BudgetExceeded
  }

  /** A budget, if there is one, covers `n` bytes. */
  predicate Covers(budget: Option<int>, n: nat) {
    budget.Some? ==> budget.value >= n
  }

  /** From `b0` to `b1`, at most `n` was charged. */
  predicate Charged(b0: Option<int>, b1: Option<int>, n: nat) {
    b0.Some? == b1.Some? && (b0.Some? ==> b1.value >= b0.value - n)
  }

  class LiftCtx {
    const memory: Memory
    var storagePtr: nat
    var storageLen: Option<int>

    constructor (memory: Memory, storagePtr: nat, storageLen: Option<int>)
      ensures this.memory == memory && this.storagePtr == storagePtr && this.storageLen == storageLen
    {
      this.memory, this.storagePtr, this.storageLen := memory, storagePtr, storageLen;
    }

    ghost predicate Ready(ty: Ty)
      reads this
    {
      WellFormed(ty) && Aligned(storagePtr, Align(ty)) && Covers(storageLen, Size(ty))
    }

    method LiftU8() returns (r: Lifted)
      requires Covers(storageLen, 1)
      modifies this
      ensures Agrees(r, Load(memory, U8, old(storagePtr)))
      ensures r.Ok? ==> storagePtr == old(storagePtr) + 1 && Charged(old(storageLen), storageLen, 1)
    {
      if storageLen.Some? && storageLen.value < 1 {
        return Err(BudgetExceeded);
      }
      if storagePtr + 1 > |memory| {
        return Err(OutOfBounds);
      }
      var val := memory[storagePtr];
      storagePtr := storagePtr + 1;
      if storageLen.Some? {
        storageLen := Some(storageLen.value - 1);
      }
      return Ok(VNum(val));
    }

    method LiftU16() returns (r: Lifted)
      requires Ready(U16)
      modifies this
      ensures Agrees(r, Load(memory, U16, old(storagePtr)))
      ensures r.Ok? ==> storagePtr == old(storagePtr) + 2 && Charged(old(storageLen), storageLen, 2)
    {
      if storageLen.Some? && storageLen.value < 2 {
        return Err(BudgetExceeded);
      }
      if storagePtr + 2 > |memory| {
        return Err(OutOfBounds);
      }
      var val := Get16(memory, storagePtr);
      storagePtr := storagePtr + 2;
      if storageLen.Some? {
        storageLen := Some(storageLen.value - 2);
      }
      storagePtr := AlignTo(storagePtr, 2);
      return Ok(VNum(val));
    }

    method LiftU32() returns (r: Lifted)
      requires Covers(storageLen, 4)
      modifies this
      ensures Agrees(r, Load(memory, U32, old(storagePtr)))
      ensures r.Ok? ==> storagePtr == old(storagePtr) + 4 && Charged(old(storageLen), storageLen, 4)
      ensures r.Ok? ==> r.value == VNum(Get32(memory, old(storagePtr)))
    {
      if storageLen.Some? && storageLen.value < 4 {
        return Err(BudgetExceeded);
      }
      if storagePtr + 4 > |memory| {
        return Err(OutOfBounds);
      }
      var val := Get32(memory, storagePtr);
      storagePtr := storagePtr + 4;
      if storageLen.Some? {
        storageLen := Some(storageLen.value - 4);
      }
      return Ok(VNum(val));
    }

    /** Charges nothing: the runtime decrements a misspelled property. */
    method LiftString() returns (r: Lifted)
      requires Ready(Str)
      modifies this
      ensures Agrees(r, Load(memory, Str, old(storagePtr)))
      ensures r.Ok? ==> storagePtr == old(storagePtr) + 8 && storageLen == old(storageLen)
    {
      storagePtr := AlignTo(storagePtr, 4);
      if storagePtr + 8 > |memory| {
        return Err(OutOfBounds);
      }
      var start := Get32(memory, storagePtr);
      var codeUnits := Get32(memory, storagePtr + 4);
      if start + codeUnits > |memory| {
        return Err(OutOfBounds);
      }
      var val := TextDecode(memory[start..start + codeUnits]);
      storagePtr := storagePtr + 8;
      return Ok(VStr(val));
    }

    method LiftFlat(ty: Ty) returns (r: Lifted)
      requires Ready(ty)
      modifies this
      ensures Agrees(r, Load(memory, ty, old(storagePtr)))
      ensures r.Ok? ==> old(storagePtr) <= storagePtr <= old(storagePtr) + Size(ty)
      ensures r.Ok? ==> Charged(old(storageLen), storageLen, Size(ty))
      decreases ty, 1
    {
      match ty
      case U8 => r := LiftU8();
      case U16 => r := LiftU16();
      case U32 => r := LiftU32();
      case Str => r := LiftString();
      case Record(_, _, _, _) => r := LiftRecord(ty);
      case Tuple(_, _, _) => r := LiftTuple(ty);
      case Variant(_, _, _, _) => r := LiftVariant(ty);
      case List(_, _, _) => r := LiftList(ty);
    }

    method LiftSlot(s: Slot) returns (r: Lifted)
      requires WellFormedSlot(s) && Ready(s.ty)
      modifies this
      ensures Agrees(r, LoadSlot(memory, s, old(storagePtr)))
      ensures r.Ok? ==> old(storagePtr) <= storagePtr <= old(storagePtr) + s.size32
      decreases s, 1
    {
      r := LiftFlat(s.ty);
    }

    /** One turn of the loop over the fields of a record or tuple that starts at `p`. */
    method LiftField(ss: seq<Slot>, i: nat, ghost p: nat, ghost size: nat, ghost align: Alignment,
                     ghost budget: Option<int>)
      returns (r: Lifted)
      requires WellFormedSlots(ss) && SlotsLayout(ss, size, align) && i < |ss| && Aligned(p, align)
      requires Covers(budget, size) && Charged(budget, storageLen, End(ss, i))
      requires storagePtr == p + End(ss, i)
      modifies this
      ensures Agrees(r, LoadSlot(memory, ss[i], p + Off(ss, i)))
      ensures r.Ok? ==> storagePtr == p + End(ss, i + 1) && Charged(budget, storageLen, End(ss, i + 1))
      decreases ss, 0
    {
      SlotPlace(ss, i, p);
      assert WellFormedSlot(ss[i]);
      storagePtr := AlignTo(storagePtr, ss[i].align32);
      var fieldPtr := storagePtr;
      var fieldLen := storageLen;
      r := LiftSlot(ss[i]);
      if r.Err? {
        return;
      }
      storagePtr := Max(storagePtr, fieldPtr + ss[i].size32);
      if fieldLen.Some? {
        storageLen := Some(fieldLen.value - ss[i].size32);
      } else {
        storageLen := None;
      }
    }

    method LiftSlots(ss: seq<Slot>, size32: nat, align32: Alignment) returns (r: Result<seq<Val>, LiftError>)
      requires WellFormedSlots(ss) && SlotsLayout(ss, size32, align32) && Aligned(storagePtr, align32)
      requires Covers(storageLen, size32)
      modifies this
      ensures AllAgree(r, LoadSlots(memory, ss, |ss|, old(storagePtr)))
      ensures r.Ok? ==> storagePtr == old(storagePtr) + size32 && Charged(old(storageLen), storageLen, size32)
      decreases ss, 1
    {
      hide LoadSlots, LoadSlot;
      LoadNothing(memory, ss, storagePtr);
      SlotsPadding(ss, size32, align32);
      var originalPtr := storagePtr;
      ghost var budget := storageLen;
      var res := [];
      var i := 0;
      while i < |ss|
        invariant i <= |ss| && storagePtr == originalPtr + End(ss, i)
        invariant Charged(budget, storageLen, End(ss, i))
        invariant LoadSlots(memory, ss, i, originalPtr) == Some(res)
      {
        var val := LiftField(ss, i, originalPtr, size32, align32, budget);
        LoadSlotsNext(memory, ss, i, originalPtr);
        if val.Err? {
          LoadSlotsStop(memory, ss, i + 1, |ss|, originalPtr);
          return Err(val.error);
        }
        res := res + [val.value];
        i := i + 1;
      }
      storagePtr := Max(storagePtr, originalPtr + size32);
      AlignToShift(originalPtr, size32, align32);
      storagePtr := AlignTo(storagePtr, align32);
      return Ok(res);
    }

    method LiftRecord(ty: Ty) returns (r: Lifted)
      requires ty.Record? && Ready(ty)
      modifies this
      ensures Agrees(r, Load(memory, ty, old(storagePtr)))
      ensures r.Ok? ==> storagePtr == old(storagePtr) + Size(ty) && Charged(old(storageLen), storageLen, Size(ty))
      decreases ty, 0
    {
      var vals := LiftSlots(ty.slots, ty.size32, ty.align32);
      if vals.Err? {
        return Err(vals.error);
      }
      return Ok(VRecord(Zip(ty.names, vals.value, |ty.names|)));
    }

    method LiftTuple(ty: Ty) returns (r: Lifted)
      requires ty.Tuple? && Ready(ty)
      modifies this
      ensures Agrees(r, Load(memory, ty, old(storagePtr)))
      ensures r.Ok? ==> storagePtr == old(storagePtr) + Size(ty) && Charged(old(storageLen), storageLen, Size(ty))
      decreases ty, 0
    {
      var vals := LiftSlots(ty.slots, ty.size32, ty.align32);
      if vals.Err? {
        return Err(vals.error);
      }
      return Ok(VTuple(vals.value));
    }

    method LiftVariant(ty: Ty) returns (r: Lifted)
      requires ty.Variant? && Ready(ty)
      modifies this
      ensures Agrees(r, Load(memory, ty, old(storagePtr)))
      ensures r.Ok? ==> old(storagePtr) <= storagePtr <= old(storagePtr) + Size(ty)
      ensures r.Ok? ==> Charged(old(storageLen), storageLen, Size(ty))
      decreases ty, 0
    {
      var Variant(cases, size32, align32, payloadOffset32) := ty;
      var originalPtr := storagePtr;
      AlignToShift(originalPtr, size32, align32);
      var disc := LiftU8();
      if disc.Err? {
        return disc;
      }
      var caseIdx := disc.value.n;
      if caseIdx >= |cases| {
        return Err(BadDiscriminant);
      }
      var Case(tag, payload) := cases[caseIdx];
      storagePtr := originalPtr + payloadOffset32;
      if payload.None? {
        r := Ok(VVariant(tag, None));
        storagePtr := originalPtr + size32;
      } else {
        PayloadPlace(ty, caseIdx, originalPtr);
        var val := LiftFlat(payload.value);
        if val.Err? {
          return val;
        }
        r := Ok(VVariant(tag, Some(val.value)));
      }
      AlignToLeast(storagePtr, originalPtr + size32, align32);
      storagePtr := AlignTo(storagePtr, align32);
    }

    /** One turn of the loop over the `n` elements of the list data at `dataPtr`. */
    method LiftElem(elem: Ty, elemSize32: nat, dataPtr: nat, i: nat, ghost n: nat, ghost budget: Option<int>)
      returns (r: Lifted)
      requires WellFormed(elem) && elemSize32 == Size(elem) && Aligned(dataPtr, Align(elem)) && i < n
      requires Covers(budget, ElemOff(elemSize32, n)) && Charged(budget, storageLen, ElemOff(elemSize32, i))
      modifies this
      ensures Agrees(r, LoadElem(memory, elem, dataPtr, i))
      ensures r.Ok? ==> Charged(budget, storageLen, ElemOff(elemSize32, i + 1))
      decreases elem, 2
    {
      ElemPlace(elem, dataPtr, i, n);
      ElemOffIsProduct(elemSize32, i);
      var elemPtr := dataPtr + i * elemSize32;
      storagePtr := elemPtr;
      r := LiftFlat(elem);
      storagePtr := Max(storagePtr, elemPtr + elemSize32);
    }

    /** `readValuesAndReset` up to the reset: `len` elements starting at `dataPtr`. */
    method ReadValues(elem: Ty, elemSize32: nat, dataPtr: nat, len: nat) returns (r: Result<seq<Val>, LiftError>)
      requires WellFormed(elem) && elemSize32 == Size(elem) && Aligned(dataPtr, Align(elem))
      requires Covers(storageLen, ElemOff(elemSize32, len))
      modifies this
      ensures AllAgree(r, LoadElems(memory, elem, len, dataPtr))
      decreases elem, 3
    {
      hide LoadElems, LoadElem;
      ghost var budget := storageLen;
      storagePtr := dataPtr;
      LoadNoElems(memory, elem, dataPtr);
      var val := [];
      var i := 0;
      while i < len
        invariant i <= len && Charged(budget, storageLen, ElemOff(elemSize32, i))
        invariant LoadElems(memory, elem, i, dataPtr) == Some(val)
      {
        var res := LiftElem(elem, elemSize32, dataPtr, i, len, budget);
        LoadElemsNext(memory, elem, i, dataPtr);
        if res.Err? {
          LoadElemsStop(memory, elem, i + 1, len, dataPtr);
          return Err(res.error);
        }
        val := val + [res.value];
        i := i + 1;
      }
      return Ok(val);
    }

    method LiftList(ty: Ty) returns (r: Lifted)
      requires ty.List? && Ready(ty)
      modifies this
      ensures Agrees(r, Load(memory, ty, old(storagePtr)))
      ensures r.Ok? ==> storagePtr == old(storagePtr) + Size(ty) && storageLen == old(storageLen)
      decreases ty, 0
    {
      var List(elem, elemSize32, elemAlign32) := ty;
      var originalLen := storageLen;
      storageLen := Some(8);
      var ptrRes := LiftU32();
      if ptrRes.Err? {
        return ptrRes;
      }
      var dataPtr := ptrRes.value.n;
      var lenRes := LiftU32();
      if lenRes.Err? {
        return lenRes;
      }
      var len := lenRes.value.n;
      var originalPtr := storagePtr;
      storagePtr := dataPtr;
      ElemOffIsProduct(elemSize32, len);
      storageLen := Some(len * elemSize32);
      if Rem(dataPtr, elemAlign32) != 0 {
        return Err(MisalignedList);
      }
      var vals := ReadValues(elem, elemSize32, dataPtr, len);
      if vals.Err? {
        return Err(vals.error);
      }
      storagePtr := originalPtr;
      storageLen := originalLen;
      return Ok(VList(vals.value));
    }
  }

  // ----- early exits ---------------------------------------------------------------

  lemma LoadNothing(m: Memory, ss: seq<Slot>, p: nat)
    requires WellFormedSlots(ss)
    ensures LoadSlots(m, ss, 0, p) == Some([]) && End(ss, 0) == 0
  {
  }

  lemma LoadSlotsNext(m: Memory, ss: seq<Slot>, i: nat, p: nat)
    requires i < |ss| && WellFormedSlots(ss) && WellFormedSlot(ss[i]) && LoadSlots(m, ss, i, p).Some?
    ensures var v := LoadSlot(m, ss[i], p + Off(ss, i));
            LoadSlots(m, ss, i + 1, p) == if v.Some? then Some(LoadSlots(m, ss, i, p).value + [v.value]) else None
  {
    hide LoadSlot;
  }

  lemma LoadNoElems(m: Memory, elem: Ty, q: nat)
    requires WellFormed(elem)
    ensures LoadElems(m, elem, 0, q) == Some([])
  {
  }

  lemma LoadElemsNext(m: Memory, elem: Ty, i: nat, q: nat)
    requires WellFormed(elem) && LoadElems(m, elem, i, q).Some?
    ensures var v := LoadElem(m, elem, q, i);
            LoadElems(m, elem, i + 1, q) == if v.Some? then Some(LoadElems(m, elem, i, q).value + [v.value]) else None
  {
    hide LoadElem;
  }

  lemma {:induction false} LoadSlotsStop(m: Memory, ss: seq<Slot>, i: nat, n: nat, p: nat)
    requires i <= n <= |ss| && WellFormedSlots(ss) && LoadSlots(m, ss, i, p).None?
    ensures LoadSlots(m, ss, n, p).None?
    decreases n - i
  {
    if i < n {
      LoadSlotsStop(m, ss, i, n - 1, p);
    }
  }

  lemma {:induction false} LoadElemsStop(m: Memory, elem: Ty, i: nat, n: nat, q: nat)
    requires i <= n && WellFormed(elem) && LoadElems(m, elem, i, q).None?
    ensures LoadElems(m, elem, n, q).None?
    decreases n - i
  {
    if i < n {
      LoadElemsStop(m, elem, i, n - 1, q);
    }
  }

  // ----- the round trip ---------------------------------------------------------------

  /**
   Lowering a value and lifting it back: the lifted value is the one lowered exactly
   when no string in it has a lone surrogate or a leading byte order mark.  No live
   byte outside the slot changes, and nothing else is written but fresh blocks.
   */
  method RoundTrip(ctx: LowerCtx, ty: Ty, budget: Option<int>) returns (stored: Outcome, r: Lifted)
    requires ctx.Ready(ty) && Covers(budget, Size(ty))
    modifies ctx
    ensures stored.Done? || stored.OutOfMemory?
    ensures stored.Done? ==> r == Ok(Decoded(old(ctx.vals[0])))
    ensures stored.Done? ==> (r == Ok(old(ctx.vals[0])) <==> Plain(old(ctx.vals[0])))
    ensures Frame(old(ctx.Snap()), ctx.Snap(), Range(old(ctx.storagePtr), Size(ty)))
  {
    var p := ctx.storagePtr;
    ghost var v, live0 := ctx.vals[0], ctx.live;
    stored := ctx.LowerFlat(ty);
    r := Err(OutOfBounds);
    if stored.Done? {
      HoldsLoad(ctx.memory, ctx.live - live0, ty, p, v);
      DecodedPlain(v);
      var lift := new LiftCtx(ctx.memory, p, budget);
      r := lift.LiftFlat(ty);
    }
  }
}
