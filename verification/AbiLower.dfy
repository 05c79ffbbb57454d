/**
 Storing: the `_lowerFlat*` functions writing a host value into linear memory.

 The context object is threaded through all of them and updated in place, as in
 the runtime.  Two ghost fields describe what the runtime does not record: `live`,
 the addresses in use (among them the slot being filled), and `written`, the
 addresses stored to.
 */
module AbiLower {
  import opened Wrappers
  import opened Utf8
  import opened AbiLayout
  import opened AbiMemory

  /** `Done`, an allocation trap in the guest, or one of the runtime's own throws. */
  datatype Outcome = Done | OutOfMemory | EncodeFailed

  // ----- values of a type ---------------------------------------------------------

  /** `caseLookup`: the last case with the given tag. */
  function FindCase(cases: seq<Case>, tag: string): (i: Option<nat>)
    ensures i.Some? ==> i.value < |cases| && cases[i.value].tag == tag
  {
    if cases == [] then None
    else if cases[|cases| - 1].tag == tag then Some(|cases| - 1)
    else FindCase(cases[..|cases| - 1], tag)
  }

  ghost predicate HasType(v: Val, ty: Ty)
    decreases ty
  {
    match ty
    case U8 => v.VNum? && v.n < 0x100
    case U16 => v.VNum? && v.n < 0x1_0000
    case U32 => v.VNum? && v.n < ADDRESS_SPACE
    case Str => v.VStr?
    case Record(names, slots, _, _) =>
      && v.VRecord? && |names| == |slots| && v.fields.Keys == (set s | s in names)
      && HaveTypes(FieldVals(names, v.fields), slots)
    case Tuple(slots, _, _) =>
      v.VTuple? && |v.elems| == |slots| && HaveTypes(v.elems, slots)
    case Variant(cases, _, _, _) =>
      && v.VVariant?
      && var i := FindCase(cases, v.tag);
      && i.Some?
      && var c := cases[i.value];
      && v.payload.Some? == c.payload.Some?
      && (c.payload.Some? ==> HasType(v.payload.value, c.payload.value))
    case List(elem, _, _) =>
      v.VList? && |v.elems| < ADDRESS_SPACE && forall i :: 0 <= i < |v.elems| ==> HasType(v.elems[i], elem)
  }

  ghost predicate HasSlotType(v: Val, s: Slot)
    decreases s
  {
    HasType(v, s.ty)
  }

  ghost predicate HaveTypes(vs: seq<Val>, ss: seq<Slot>)
    requires |vs| == |ss|
    decreases ss
  {
    forall i :: 0 <= i < |ss| ==> HasSlotType(vs[i], ss[i])
  }

  // ----- effects on memory -----------------------------------------------------------

  /** A snapshot of memory together with the ghost bookkeeping. */
  datatype Store = Store(m: Memory, live: set<nat>, written: set<nat>)

  /**
   From `s0` to `s1`, only addresses in `slot` and freshly allocated ones were
   written, and every other live byte kept its value.
   */
  ghost predicate Frame(s0: Store, s1: Store, slot: set<nat>) {
    && s0.live <= s1.live
    && Agree(s0.m, s1.m, s0.live - slot)
    && s1.written <= s0.written + slot + (s1.live - s0.live)
  }

  lemma FrameTrans(s0: Store, s1: Store, s2: Store, slot: set<nat>, slot': set<nat>)
    requires Frame(s0, s1, slot) && Frame(s1, s2, slot')
    requires slot' <= slot + (s1.live - s0.live)
    requires forall a :: a in s0.live ==> a < |s0.m|
    ensures Frame(s0, s2, slot)
  {
  }

  lemma FrameWidened(s0: Store, s1: Store, slot: set<nat>, wider: set<nat>)
    requires Frame(s0, s1, slot) && slot <= wider
    ensures Frame(s0, s1, wider)
  {
  }

  /** The allocator keeps every live byte and stores nothing itself. */
  lemma FrameAllocated(s0: Store, s1: Store, block: set<nat>, slot: set<nat>)
    requires Agree(s0.m, s1.m, s0.live) && s1.live == s0.live + block && s1.written == s0.written
    ensures Frame(s0, s1, slot)
  {
  }

  /** The tag at `p` was stored, then bytes of the payload, on whatever outcome. */
  lemma VariantFrame(s0: Store, s1: Store, s2: Store, p: nat, size: nat, payloadOffset: nat, payloadSize: nat)
    requires Bounded(s0) && Frame(s0, s1, Range(p, 1)) && Frame(s1, s2, Range(p + payloadOffset, payloadSize))
    requires 1 <= size && payloadOffset + payloadSize <= size
    ensures Frame(s0, s2, Range(p, size))
  {
    assert Range(p, 1) <= Range(p, size) && Range(p + payloadOffset, payloadSize) <= Range(p, size);
    FrameWidened(s0, s1, Range(p, 1), Range(p, size));
    FrameTrans(s0, s1, s2, Range(p, size), Range(p + payloadOffset, payloadSize));
  }

  /** The block was allocated, the header at `p` stored, then bytes of the elements. */
  lemma ListFrame(s0: Store, s1: Store, s2: Store, s3: Store, p: nat, q: nat, size: nat)
    requires Bounded(s0) && Bounded(s1) && Frame(s2, s3, Range(q, size)) && Frame(s1, s2, Range(p, 8))
    requires Agree(s0.m, s1.m, s0.live) && s1.live == s0.live + Range(q, size) && s1.written == s0.written
    requires s2.live == s1.live && Range(q, size) !! s0.live
    ensures Frame(s0, s3, Range(p, 8))
  {
    FrameAllocated(s0, s1, Range(q, size), Range(p, 8));
    FrameTrans(s0, s1, s2, Range(p, 8), Range(p, 8));
    FrameTrans(s0, s2, s3, Range(p, 8), Range(q, size));
  }

  /** Slot `p` of type `ty` was filled with `v`. */
  ghost predicate Lowered(s0: Store, s1: Store, ty: Ty, p: nat, v: Val) {
    Frame(s0, s1, Range(p, Size(ty))) && Holds(s1.m, s1.live - s0.live, ty, p, v)
  }

  /** The first `i` slots of the record or tuple at `p`, of `size` bytes, were filled. */
  ghost predicate SlotsLowered(s0: Store, s1: Store, ss: seq<Slot>, i: nat, p: nat, size: nat, vs: seq<Val>)
    requires i <= |ss|
  {
    Frame(s0, s1, Range(p, size)) && HoldsSlots(s1.m, s1.live - s0.live, ss, i, p, vs)
  }

  ghost predicate ElemsLowered(s0: Store, s1: Store, elem: Ty, i: nat, n: nat, q: nat, vs: seq<Val>) {
    Frame(s0, s1, Range(q, ElemOff(Size(elem), n))) && HoldsElems(s1.m, s1.live - s0.live, elem, i, q, vs)
  }

  ghost predicate Bounded(s: Store) {
    |s.m| <= ADDRESS_SPACE && forall a :: a in s.live ==> a < |s.m|
  }

  lemma SlotsStep(s0: Store, s1: Store, s2: Store, ss: seq<Slot>, i: nat, p: nat, size: nat, align: Alignment,
                  vs: seq<Val>)
    requires WellFormedSlots(ss) && SlotsLayout(ss, size, align) && i < |ss| == |vs|
    requires Bounded(s0) && Bounded(s1) && Range(p, size) <= s0.live
    requires SlotsLowered(s0, s1, ss, i, p, size, vs)
    requires Lowered(s1, s2, ss[i].ty, p + Off(ss, i), vs[i])
    ensures SlotsLowered(s0, s2, ss, i + 1, p, size, vs)
  {
    hide Holds, WellFormed, Size;
    SlotPlace(ss, i, 0);
    assert WellFormedSlot(ss[i]);
    hide WellFormedSlots, SlotsLayout;
    var slot, blocks := Range(p + Off(ss, i), Size(ss[i].ty)), s2.live - s0.live;
    assert slot <= Range(p, size);
    FrameTrans(s0, s1, s2, Range(p, size), slot);
    assert HoldsSlots(s2.m, blocks, ss, i, p, vs) by {
      assert Range(p, End(ss, i)) <= Range(p, size);
      assert Agree(s1.m, s2.m, Range(p, End(ss, i)));
      HoldsSlotsFrame(s1.m, s1.live - s0.live, s2.m, blocks, ss, i, p, vs);
    }
    assert HoldsSlotAt(s2.m, blocks, ss, i, p, vs) by {
      HoldsFrame(s2.m, s2.live - s1.live, s2.m, blocks, ss[i].ty, p + Off(ss, i), vs[i]);
    }
    forall j | 0 <= j < i + 1 ensures HoldsSlotAt(s2.m, blocks, ss, j, p, vs) {
    }
  }

  lemma ElemsStep(s0: Store, s1: Store, s2: Store, elem: Ty, i: nat, n: nat, q: nat, vs: seq<Val>)
    requires WellFormed(elem) && i < n == |vs|
    requires Bounded(s0) && Bounded(s1) && Range(q, ElemOff(Size(elem), n)) <= s0.live
    requires ElemsLowered(s0, s1, elem, i, n, q, vs)
    requires Lowered(s1, s2, elem, q + ElemOff(Size(elem), i), vs[i])
    ensures ElemsLowered(s0, s2, elem, i + 1, n, q, vs)
  {
    hide Holds, WellFormed, Size;
    ElemOffMonotone(Size(elem), i + 1, n);
    assert ElemOff(Size(elem), i + 1) == ElemOff(Size(elem), i) + Size(elem);
    var slot := Range(q + ElemOff(Size(elem), i), Size(elem));
    var whole, blocks := Range(q, ElemOff(Size(elem), n)), s2.live - s0.live;
    assert slot <= whole;
    FrameTrans(s0, s1, s2, whole, slot);
    assert HoldsElems(s2.m, blocks, elem, i, q, vs) by {
      assert Range(q, ElemOff(Size(elem), i)) <= whole;
      assert Agree(s1.m, s2.m, Range(q, ElemOff(Size(elem), i)));
      HoldsElemsFrame(s1.m, s1.live - s0.live, s2.m, blocks, elem, i, n, q, vs);
    }
    assert HoldsElemAt(s2.m, blocks, elem, i, q, vs) by {
      HoldsFrame(s2.m, s2.live - s1.live, s2.m, blocks, elem, q + ElemOff(Size(elem), i), vs[i]);
    }
    forall j | 0 <= j < i + 1 ensures HoldsElemAt(s2.m, blocks, elem, j, q, vs) {
    }
  }

  /** What the layout of a variant says about its parts. */
  lemma VariantReady(ty: Ty, v: Val, p: nat)
    requires ty.Variant? && WellFormed(ty) && HasType(v, ty)
    ensures FindCase(ty.cases, v.tag).Some? && |ty.cases| < 256
    ensures Size(ty) == ty.size32 && Align(ty) == ty.align32 && Aligned(ty.size32, ty.align32)
    ensures 1 <= ty.payloadOffset32 <= ty.size32 && Range(p, 1) <= Range(p, ty.size32)
  {
    hide Aligned;
  }

  lemma PayloadReady(ty: Ty, v: Val, i: nat, p: nat)
    requires ty.Variant? && WellFormed(ty) && HasType(v, ty) && FindCase(ty.cases, v.tag) == Some(i)
    requires ty.cases[i].payload.Some? && Aligned(p, Align(ty))
    ensures var payload := ty.cases[i].payload.value;
            && v.payload.Some? && WellFormed(payload) && HasType(v.payload.value, payload)
            && Aligned(p + ty.payloadOffset32, Align(payload))
            && ty.payloadOffset32 + Size(payload) <= ty.size32
            && Range(p + ty.payloadOffset32, Size(payload)) <= Range(p, ty.size32)
  {
    PayloadPlace(ty, i, p);
  }

  lemma TagStored(s0: Store, s1: Store, p: nat, i: nat)
    requires p + 1 <= |s0.m| && i < 256 && s1.m == Put8(s0.m, p, i) && Lowered(s0, s1, U8, p, VNum(i))
    ensures Frame(s0, s1, Range(p, 1)) && |s1.m| == |s0.m| && s1.m[p] == i
  {
  }

  lemma NoPayloadFrame(s0: Store, s1: Store, p: nat, size: nat)
    requires Frame(s0, s1, Range(p, 1)) && 1 <= size
    ensures Frame(s0, s1, Range(p, size))
  {
    assert Range(p, 1) <= Range(p, size);
  }

  lemma RecordReady(ty: Ty, v: Val)
    requires ty.Record? && WellFormed(ty) && HasType(v, ty)
    ensures |ty.names| == |ty.slots| && v.VRecord? && v.fields.Keys == (set s | s in ty.names)
    ensures HaveTypes(FieldVals(ty.names, v.fields), ty.slots)
    ensures WellFormedSlots(ty.slots) && SlotsLayout(ty.slots, ty.size32, ty.align32)
    ensures Size(ty) == ty.size32 && Align(ty) == ty.align32
  {
  }

  lemma NothingFilled(s: Store, ss: seq<Slot>, p: nat, size: nat, vs: seq<Val>)
    ensures SlotsLowered(s, s, ss, 0, p, size, vs) && End(ss, 0) == 0
  {
  }

  /** All slots filled: the record or tuple is. */
  lemma RecordFilled(s0: Store, s1: Store, ty: Ty, p: nat, v: Val)
    requires ty.Record? && WellFormed(ty) && HasType(v, ty) && p + Size(ty) <= |s1.m|
    requires SlotsLowered(s0, s1, ty.slots, |ty.slots|, p, ty.size32, FieldVals(ty.names, v.fields))
    ensures Lowered(s0, s1, ty, p, v)
  {
  }

  // ----- the context ----------------------------------------------------------------

  class LowerCtx {
    var storagePtr: nat
    var vals: seq<Val>
    var memory: Memory
    ghost var live: set<nat>
    ghost var written: set<nat>

    ghost function Snap(): Store
      reads this
    {
      Store(memory, live, written)
    }

    /** The context is about to fill an aligned slot for `ty` with `vals[0]`. */
    ghost predicate Ready(ty: Ty)
      reads this
    {
      && Bounded(Snap()) && WellFormed(ty)
      && Aligned(storagePtr, Align(ty))
      && storagePtr + Size(ty) <= |memory| && Range(storagePtr, Size(ty)) <= live
      && |vals| == 1 && HasType(vals[0], ty)
    }

    /**
     The guest's allocator.  Nothing is assumed about it but this contract: it traps,
     or returns an aligned block of addresses not in use, possibly after growing
     memory and rewriting bytes that are not in use.  The body is one such allocator.
     */
    method Realloc(align: Alignment, size: nat) returns (r: Option<nat>)
      requires Bounded(Snap())
      modifies this`memory, this`live
      ensures Bounded(Snap()) && Agree(old(memory), memory, old(live))
      ensures r.None? ==> live == old(live)
      ensures r.Some? ==>
                && Aligned(r.value, align) && r.value + size <= |memory|
                && r.value < ADDRESS_SPACE && size < ADDRESS_SPACE
                && Range(r.value, size) !! old(live) && live == old(live) + Range(r.value, size)
    {
      var gap: nat :| gap <= 64;
      var ptr := AlignTo(|memory| + gap, align);
      if ptr + size >= ADDRESS_SPACE {
        return None;
      }
      memory := memory + seq(ptr + size - |memory|, _ => 0);
      live := live + Range(ptr, size);
      return Some(ptr);
    }

    method SetUint8(p: nat, n: nat)
      requires p + 1 <= |memory|
      modifies this`memory, this`written
      ensures memory == Put8(old(memory), p, n) && written == old(written) + Range(p, 1)
    {
      memory := Put8(memory, p, n);
      written := written + Range(p, 1);
    }

    method SetUint16(p: nat, n: nat)
      requires p + 2 <= |memory|
      modifies this`memory, this`written
      ensures memory == Put16(old(memory), p, n) && written == old(written) + Range(p, 2)
    {
      memory := Put16(memory, p, n);
      written := written + Range(p, 2);
    }

    method SetUint32(p: nat, n: nat)
      requires p + 4 <= |memory|
      modifies this`memory, this`written
      ensures memory == Put32(old(memory), p, n) && written == old(written) + Range(p, 4)
    {
      memory := Put32(memory, p, n);
      written := written + Range(p, 4);
    }

    /** `_utf8AllocateAndEncode`: the check after `encodeInto` never fails. */
    method Utf8AllocateAndEncode(s: seq<CodeUnit>) returns (r: Outcome, ptr: nat, len: nat)
      requires Bounded(Snap()) && |memory| >= 1
      modifies this`memory, this`live, this`written
      ensures r.Done? || r.OutOfMemory?
      ensures Bounded(Snap()) && Frame(old(Snap()), Snap(), {})
      ensures r.Done? ==>
                && ptr < ADDRESS_SPACE && len < ADDRESS_SPACE && ptr + len <= |memory|
                && Range(ptr, len) <= live - old(live)
                && memory[ptr..ptr + len] == EncodeUnits(s)
    {
      ptr, len := 1, 0;
      if |s| == 0 {
        return Done, ptr, len;
      }
      var codepoints;
      len, codepoints := Measure(s);
      var block := Realloc(1, len);
      if block.None? {
        return OutOfMemory, ptr, len;
      }
      ptr := block.value;
      var (read, bytes) := EncodeInto(s, len);
      memory := memory[..ptr] + bytes + memory[ptr + |bytes|..];
      written := written + Range(ptr, |bytes|);
      EncodeIntoExact(s);
      if read != |s| || |bytes| != len {
        return EncodeFailed, ptr, len;
      }
      return Done, ptr, len;
    }

    method LowerU8()
      requires Ready(U8)
      modifies this
      ensures Bounded(Snap()) && live == old(live)
      ensures memory == Put8(old(memory), old(storagePtr), old(vals[0]).n)
      ensures storagePtr == old(storagePtr) + 1 && Lowered(old(Snap()), Snap(), U8, old(storagePtr), old(vals[0]))
    {
      SetUint8(storagePtr, vals[0].n);
      storagePtr := storagePtr + 1;
    }

    method LowerU16()
      requires Ready(U16)
      modifies this
      ensures Bounded(Snap())
      ensures storagePtr == old(storagePtr) + 2 && Lowered(old(Snap()), Snap(), U16, old(storagePtr), old(vals[0]))
    {
      storagePtr := AlignTo(storagePtr, 2);
      GetPut16(memory, storagePtr, vals[0].n);
      SetUint16(storagePtr, vals[0].n);
      storagePtr := storagePtr + 2;
    }

    method LowerU32()
      requires Ready(U32)
      modifies this
      ensures Bounded(Snap()) && live == old(live)
      ensures memory == Put32(old(memory), old(storagePtr), old(vals[0]).n)
              && written == old(written) + Range(old(storagePtr), 4)
      ensures storagePtr == old(storagePtr) + 4 && Lowered(old(Snap()), Snap(), U32, old(storagePtr), old(vals[0]))
    {
      storagePtr := AlignTo(storagePtr, 4);
      GetPut32(memory, storagePtr, vals[0].n);
      SetUint32(storagePtr, vals[0].n);
      storagePtr := storagePtr + 4;
    }

    method LowerString() returns (r: Outcome)
      requires Ready(Str)
      modifies this
      ensures r.Done? || r.OutOfMemory?
      ensures Bounded(Snap()) && Frame(old(Snap()), Snap(), Range(old(storagePtr), 8))
      ensures r.Done? ==> storagePtr == old(storagePtr) + 8
      ensures r.Done? ==> Lowered(old(Snap()), Snap(), Str, old(storagePtr), old(vals[0]))
    {
      hide Holds;
      ghost var s0, p, v := Snap(), storagePtr, vals[0];
      var ptr, len;
      r, ptr, len := Utf8AllocateAndEncode(vals[0].units);
      ghost var s1 := Snap();
      if r != Done {
        FrameWidened(s0, s1, {}, Range(p, 8));
        return;
      }
      SetUint32(storagePtr, ptr);
      SetUint32(storagePtr + 4, len);
      StringFilled(s0, s1, Snap(), p, ptr, len, v);
      storagePtr := storagePtr + 8;
    }

    method LowerFlat(ty: Ty) returns (r: Outcome)
      requires Ready(ty)
      modifies this
      ensures r.Done? || r.OutOfMemory?
      ensures Bounded(Snap()) && Frame(old(Snap()), Snap(), Range(old(storagePtr), Size(ty)))
      ensures r.Done? ==> storagePtr == old(storagePtr) + Size(ty)
      ensures r.Done? ==> Lowered(old(Snap()), Snap(), ty, old(storagePtr), old(vals[0]))
      decreases ty, 2
    {
      match ty
      case U8 => LowerU8(); r := Done;
      case U16 => LowerU16(); r := Done;
      case U32 => LowerU32(); r := Done;
      case Str => r := LowerString();
      case Record(_, _, _, _) => r := LowerRecord(ty);
      case Tuple(_, _, _) => r := LowerTuple(ty);
      case Variant(_, _, _, _) => r := LowerVariant(ty);
      case List(_, _, _) => r := LowerList(ty);
    }

    method LowerSlot(s: Slot) returns (r: Outcome)
      requires Ready(s.ty)
      modifies this
      ensures r.Done? || r.OutOfMemory?
      ensures Bounded(Snap()) && Frame(old(Snap()), Snap(), Range(old(storagePtr), Size(s.ty)))
      ensures r.Done? ==> storagePtr == old(storagePtr) + Size(s.ty)
      ensures r.Done? ==> Lowered(old(Snap()), Snap(), s.ty, old(storagePtr), old(vals[0]))
      decreases s, 1
    {
      r := LowerFlat(s.ty);
    }

    /** One turn of the loop over the fields of a record or tuple that starts at `p`. */
    method LowerField(ss: seq<Slot>, i: nat, v: Val, ghost s0: Store, ghost p: nat, ghost size: nat,
                      ghost align: Alignment, ghost vs: seq<Val>)
      returns (r: Outcome)
      requires WellFormedSlots(ss) && SlotsLayout(ss, size, align) && i < |ss| == |vs| && HaveTypes(vs, ss)
               && v == vs[i]
      requires Bounded(s0) && Bounded(Snap()) && Aligned(p, align)
      requires p + size <= |s0.m| && Range(p, size) <= s0.live && |s0.m| <= |memory|
      requires storagePtr == p + End(ss, i) && SlotsLowered(s0, Snap(), ss, i, p, size, vs)
      modifies this
      ensures r.Done? || r.OutOfMemory?
      ensures Bounded(Snap()) && Frame(s0, Snap(), Range(p, size)) && |s0.m| <= |memory|
      ensures r.Done? ==> storagePtr == p + End(ss, i + 1) && SlotsLowered(s0, Snap(), ss, i + 1, p, size, vs)
      decreases ss, 0
    {
      hide Holds, HasType;
      SlotPlace(ss, i, p);
      assert WellFormedSlot(ss[i]) && HasSlotType(vs[i], ss[i]);
      storagePtr := AlignTo(storagePtr, ss[i].align32);
      var fieldPtr := storagePtr;
      vals := [v];
      ghost var s1 := Snap();
      assert Range(fieldPtr, ss[i].size32) <= Range(p, size);
      r := LowerSlot(ss[i]);
      FrameTrans(s0, s1, Snap(), Range(p, size), Range(fieldPtr, ss[i].size32));
      if r != Done {
        return;
      }
      storagePtr := Max(storagePtr, fieldPtr + ss[i].size32);
      SlotsStep(s0, s1, Snap(), ss, i, p, size, align, vs);
    }

    method LowerRecord(ty: Ty) returns (r: Outcome)
      requires ty.Record? && Ready(ty)
      modifies this
      ensures r.Done? || r.OutOfMemory?
      ensures Bounded(Snap()) && Frame(old(Snap()), Snap(), Range(old(storagePtr), Size(ty)))
      ensures r.Done? ==> storagePtr == old(storagePtr) + Size(ty)
      ensures r.Done? ==> Lowered(old(Snap()), Snap(), ty, old(storagePtr), old(vals[0]))
      decreases ty, 0
    {
      var Record(names, slots, size32, align32) := ty;
      var originalPtr, rec := storagePtr, vals[0];
      ghost var s0, vs := Snap(), FieldVals(names, rec.fields);
      RecordReady(ty, rec);
      NothingFilled(s0, slots, originalPtr, size32, vs);
      hide WellFormed, HasType, HaveTypes, SlotsLowered, Lowered, FieldVals, SlotsLayout, WellFormedSlots, Size, Align;
      var i := 0;
      while i < |slots|
        invariant i <= |slots| && Bounded(Snap()) && |s0.m| <= |memory|
        invariant Frame(s0, Snap(), Range(originalPtr, size32)) && storagePtr == originalPtr + End(slots, i)
        invariant SlotsLowered(s0, Snap(), slots, i, originalPtr, size32, vs)
      {
        r := LowerField(slots, i, rec.fields[names[i]], s0, originalPtr, size32, align32, vs);
        if r != Done {
          return;
        }
        i := i + 1;
      }
      RecordFilled(s0, Snap(), ty, originalPtr, rec);
      SlotsPadding(slots, size32, align32);
      storagePtr := Max(storagePtr, originalPtr + size32);
      AlignToShift(originalPtr, size32, align32);
      storagePtr := AlignTo(storagePtr, align32);
      r := Done;
    }

    method LowerTuple(ty: Ty) returns (r: Outcome)
      requires ty.Tuple? && Ready(ty)
      modifies this
      ensures r.Done? || r.OutOfMemory?
      ensures Bounded(Snap()) && Frame(old(Snap()), Snap(), Range(old(storagePtr), Size(ty)))
      ensures r.Done? ==> storagePtr == old(storagePtr) + Size(ty)
      ensures r.Done? ==> Lowered(old(Snap()), Snap(), ty, old(storagePtr), old(vals[0]))
      decreases ty, 0
    {
      var Tuple(slots, size32, align32) := ty;
      var originalPtr, elems := storagePtr, vals[0].elems;
      ghost var s0 := Snap();
      var i := 0;
      while i < |slots|
        invariant i <= |slots| && Bounded(Snap()) && |s0.m| <= |memory|
        invariant storagePtr == originalPtr + End(slots, i)
        invariant SlotsLowered(s0, Snap(), slots, i, originalPtr, size32, elems)
      {
        r := LowerField(slots, i, elems[i], s0, originalPtr, size32, align32, elems);
        if r != Done {
          return;
        }
        i := i + 1;
      }
      storagePtr := Max(storagePtr, originalPtr + size32);
      AlignToShift(originalPtr, size32, align32);
      storagePtr := AlignTo(storagePtr, align32);
      r := Done;
    }

    method LowerVariant(ty: Ty) returns (r: Outcome)
      requires ty.Variant? && Ready(ty)
      modifies this
      ensures r.Done? || r.OutOfMemory?
      ensures Bounded(Snap()) && Frame(old(Snap()), Snap(), Range(old(storagePtr), Size(ty)))
      ensures r.Done? ==> storagePtr == old(storagePtr) + Size(ty)
      ensures r.Done? ==> Lowered(old(Snap()), Snap(), ty, old(storagePtr), old(vals[0]))
      decreases ty, 1
    {
      hide Holds, Lowered, Frame;
      var Variant(cases, size32, align32, payloadOffset32) := ty;
      var v := vals[0];
      var discriminant := FindCase(cases, v.tag).value;
      var originalPtr := storagePtr;
      ghost var s0 := Snap();
      VariantReady(ty, v, originalPtr);
      hide WellFormed, HasType, Align;
      vals := [VNum(discriminant)];
      LowerU8();
      TagStored(s0, Snap(), originalPtr, discriminant);
      r := LowerPayload(ty, v, discriminant, originalPtr, s0);
      if r != Done {
        return;
      }
      storagePtr := Max(storagePtr, originalPtr + size32);
      AlignToShift(originalPtr, size32, align32);
      storagePtr := AlignTo(storagePtr, align32);
    }

    /** The part of a variant after the tag. */
    method LowerPayload(ty: Ty, v: Val, discriminant: nat, originalPtr: nat, ghost s0: Store) returns (r: Outcome)
      requires ty.Variant? && WellFormed(ty) && HasType(v, ty) && FindCase(ty.cases, v.tag) == Some(discriminant)
      requires Bounded(s0) && Bounded(Snap()) && Aligned(originalPtr, Align(ty))
      requires originalPtr + Size(ty) <= |s0.m| <= |memory| && Range(originalPtr, Size(ty)) <= s0.live
      requires live == s0.live && Frame(s0, Snap(), Range(originalPtr, 1)) && memory[originalPtr] == discriminant
      modifies this
      ensures r.Done? || r.OutOfMemory?
      ensures Bounded(Snap()) && Frame(s0, Snap(), Range(originalPtr, Size(ty)))
      ensures r.Done? ==> storagePtr <= originalPtr + Size(ty) && Lowered(s0, Snap(), ty, originalPtr, v)
      decreases ty, 0
    {
      hide Holds, Frame, Lowered;
      VariantReady(ty, v, originalPtr);
      hide WellFormed, HasType, Align, Aligned;
      var payload := ty.cases[discriminant].payload;
      ghost var s1 := Snap();
      storagePtr := originalPtr + ty.payloadOffset32;
      if payload.Some? {
        PayloadReady(ty, v, discriminant, originalPtr);
        vals := [v.payload.value];
        r := LowerFlat(payload.value);
        VariantFrame(s0, s1, Snap(), originalPtr, ty.size32, ty.payloadOffset32, Size(payload.value));
        if r != Done {
          return;
        }
      } else {
        NoPayloadFrame(s0, s1, originalPtr, ty.size32);
        vals := [];
        r := Done;
      }
      VariantFilled(s0, s1, Snap(), ty, originalPtr, discriminant, v);
    }

    /** The pointer and the length, the in-line part of a list. */
    method LowerHeader(dataPtr: nat, length: nat)
      requires Bounded(Snap()) && dataPtr < ADDRESS_SPACE && length < ADDRESS_SPACE
      requires Aligned(storagePtr, 4) && storagePtr + 8 <= |memory| && Range(storagePtr, 8) <= live
      modifies this
      ensures Bounded(Snap()) && live == old(live) && storagePtr == old(storagePtr) + 8
      ensures Frame(old(Snap()), Snap(), Range(old(storagePtr), 8)) && |memory| == old(|memory|)
      ensures Get32(memory, old(storagePtr)) == dataPtr && Get32(memory, old(storagePtr) + 4) == length
    {
      hide Holds;
      ghost var s0, p := Snap(), storagePtr;
      assert Range(p, 4) <= Range(p, 8) && Range(p + 4, 4) <= Range(p, 8);
      vals := [VNum(dataPtr)];
      LowerU32();
      vals := [VNum(length)];
      LowerU32();
      PairStored(s0.m, memory, p, dataPtr, length);
    }

    /** The loop of `_lowerFlatList` over the elements. */
    method LowerElems(elem: Ty, elemSize32: nat, elems: seq<Val>, dataPtr: nat) returns (r: Outcome)
      requires Bounded(Snap()) && WellFormed(elem) && elemSize32 == Size(elem) && Aligned(dataPtr, Align(elem))
      requires forall i :: 0 <= i < |elems| ==> HasType(elems[i], elem)
      requires dataPtr + ElemOff(elemSize32, |elems|) <= |memory|
               && Range(dataPtr, ElemOff(elemSize32, |elems|)) <= live
      modifies this
      ensures r.Done? || r.OutOfMemory?
      ensures Bounded(Snap()) && Frame(old(Snap()), Snap(), Range(dataPtr, ElemOff(elemSize32, |elems|)))
      ensures r.Done? ==> ElemsLowered(old(Snap()), Snap(), elem, |elems|, |elems|, dataPtr, elems)
      decreases elem, 3
    {
      hide Holds, HasType;
      ghost var s0, n := Snap(), |elems|;
      var idx := 0;
      while idx < |elems|
        invariant idx <= |elems| && Bounded(Snap()) && |s0.m| <= |memory|
        invariant ElemsLowered(s0, Snap(), elem, idx, n, dataPtr, elems)
      {
        ElemPlace(elem, dataPtr, idx, n);
        ElemOffIsProduct(elemSize32, idx);
        var elemPtr := dataPtr + idx * elemSize32;
        storagePtr := elemPtr;
        vals := [elems[idx]];
        ghost var s1 := Snap();
        assert Range(elemPtr, elemSize32) <= Range(dataPtr, ElemOff(elemSize32, n));
        r := LowerFlat(elem);
        FrameTrans(s0, s1, Snap(), Range(dataPtr, ElemOff(elemSize32, n)), Range(elemPtr, elemSize32));
        if r != Done {
          return;
        }
        storagePtr := Max(storagePtr, elemPtr + elemSize32);
        ElemsStep(s0, s1, Snap(), elem, idx, n, dataPtr, elems);
        idx := idx + 1;
      }
      r := Done;
    }

    method LowerList(ty: Ty) returns (r: Outcome)
      requires ty.List? && Ready(ty)
      modifies this
      ensures r.Done? || r.OutOfMemory?
      ensures Bounded(Snap()) && Frame(old(Snap()), Snap(), Range(old(storagePtr), Size(ty)))
      ensures r.Done? ==> storagePtr == old(storagePtr) + Size(ty)
      ensures r.Done? ==> Lowered(old(Snap()), Snap(), ty, old(storagePtr), old(vals[0]))
      decreases ty, 0
    {
      hide Holds, ElemsLowered, Frame;
      var List(elem, elemSize32, elemAlign32) := ty;
      var elems := vals[0].elems;
      assert WellFormed(elem) && elemSize32 == Size(elem) && elemAlign32 == Align(elem);
      assert forall i :: 0 <= i < |elems| ==> HasType(elems[i], elem);
      hide WellFormed, HasType, Size, Align;
      ghost var s0, p := Snap(), storagePtr;
      ElemOffIsProduct(elemSize32, |elems|);
      var block := Realloc(elemAlign32, elemSize32 * |elems|);
      if block.None? {
        FrameAllocated(s0, Snap(), {}, Range(p, 8));
        return OutOfMemory;
      }
      var dataPtr := block.value;
      ghost var s1 := Snap();
      LowerHeader(dataPtr, |elems|);
      ghost var s2 := Snap();
      var origPtr := storagePtr;
      storagePtr := dataPtr;
      r := LowerElems(elem, elemSize32, elems, dataPtr);
      ListFrame(s0, s1, s2, Snap(), p, dataPtr, ElemOff(elemSize32, |elems|));
      if r != Done {
        return;
      }
      ListFilled(s0, s1, s2, Snap(), ty, p, dataPtr, elems);
      storagePtr := origPtr;
      r := Done;
    }
  }

  // ----- assembling the parts ---------------------------------------------------------

  /** The pointer and the length of a string or list, stored next to each other. */
  lemma PairStored(m1: Memory, m2: Memory, p: nat, x: nat, y: nat)
    requires p + 8 <= |m1| && x < ADDRESS_SPACE && y < ADDRESS_SPACE
    requires m2 == Put32(Put32(m1, p, x), p + 4, y)
    ensures |m2| == |m1| && Get32(m2, p) == x && Get32(m2, p + 4) == y
    ensures forall a :: 0 <= a < |m1| && !(p <= a < p + 8) ==> m2[a] == m1[a]
  {
    var m := Put32(m1, p, x);
    GetPut32(m1, p, x);
    GetPut32(m, p + 4, y);
  }

  lemma StringFilled(s0: Store, s1: Store, s2: Store, p: nat, ptr: nat, len: nat, v: Val)
    requires v.VStr? && Bounded(s0) && Bounded(s1) && Frame(s0, s1, {})
    requires p + 8 <= |s0.m| && Range(p, 8) <= s0.live
    requires ptr < ADDRESS_SPACE && len < ADDRESS_SPACE && ptr + len <= |s1.m| && Range(ptr, len) <= s1.live - s0.live
    requires s1.m[ptr..ptr + len] == EncodeUnits(v.units)
    requires s2 == Store(Put32(Put32(s1.m, p, ptr), p + 4, len), s1.live, s1.written + Range(p, 4) + Range(p + 4, 4))
    ensures Lowered(s0, s2, Str, p, v)
  {
    PairStored(s1.m, s2.m, p, ptr, len);
    StringFrame(s0, s1, s2, p);
    assert Range(ptr, len) <= s2.live - s0.live;
    assert Agree(s1.m, s2.m, Range(ptr, len));
    AgreeSlice(s1.m, s2.m, ptr, len);
    hide Frame, Agree;
  }

  /** The pair at `p` was stored over memory framed by the allocator. */
  lemma StringFrame(s0: Store, s1: Store, s2: Store, p: nat)
    requires Bounded(s0) && Frame(s0, s1, {}) && p + 8 <= |s1.m| == |s2.m|
    requires forall a :: 0 <= a < |s1.m| && !(p <= a < p + 8) ==> s2.m[a] == s1.m[a]
    requires s2.live == s1.live && s2.written == s1.written + Range(p, 4) + Range(p + 4, 4)
    ensures Frame(s0, s2, Range(p, 8))
  {
    assert Range(p, 4) <= Range(p, 8) && Range(p + 4, 4) <= Range(p, 8);
    FrameTrans(s0, s1, s2, Range(p, 8), Range(p, 8));
  }

  lemma VariantHolds(m: Memory, blocks: set<nat>, ty: Ty, p: nat, i: nat, v: Val)
    requires ty.Variant? && i < |ty.cases| && p + Size(ty) <= |m| && p < |m| && m[p] == i
    requires v.VVariant? && v.tag == ty.cases[i].tag && v.payload.Some? == ty.cases[i].payload.Some?
    requires var payload := ty.cases[i].payload;
             payload.Some? ==> Holds(m, blocks, payload.value, p + ty.payloadOffset32, v.payload.value)
    ensures Holds(m, blocks, ty, p, v)
  {
  }

  /** The discriminant at `p` and then perhaps a payload were stored. */
  lemma VariantFilled(s0: Store, s1: Store, s2: Store, ty: Ty, p: nat, i: nat, v: Val)
    requires WellFormed(ty) && ty.Variant? && HasType(v, ty) && FindCase(ty.cases, v.tag) == Some(i)
    requires Bounded(s0) && Bounded(s1) && Aligned(p, Align(ty))
    requires p + Size(ty) <= |s0.m| && Range(p, Size(ty)) <= s0.live
    requires s1.live == s0.live && Frame(s0, s1, Range(p, 1)) && s1.m[p] == i
    requires var payload := ty.cases[i].payload;
             if payload.Some? then Lowered(s1, s2, payload.value, p + ty.payloadOffset32, v.payload.value) else s2 == s1
    ensures Lowered(s0, s2, ty, p, v)
  {
    assert v.tag == ty.cases[i].tag && v.payload.Some? == ty.cases[i].payload.Some?;
    hide HasType, Holds;
    assert Range(p, 1) <= Range(p, Size(ty));
    assert Frame(s0, s1, Range(p, Size(ty)));
    var payload := ty.cases[i].payload;
    if payload.Some? {
      PayloadPlace(ty, i, p);
      var slot := Range(p + ty.payloadOffset32, Size(payload.value));
      assert slot <= Range(p, Size(ty)) && p !in slot;
      FrameTrans(s0, s1, s2, Range(p, Size(ty)), slot);
      assert p in s1.live - slot by { assert p in Range(p, Size(ty)); }
    }
    VariantHolds(s2.m, s2.live - s0.live, ty, p, i, v);
  }

  lemma ListFilled(s0: Store, s1: Store, s2: Store, s3: Store, ty: Ty, p: nat, q: nat, elems: seq<Val>)
    requires WellFormed(ty) && ty.List? && Bounded(s0) && Bounded(s1) && Bounded(s2) && Bounded(s3)
    requires p + 8 <= |s0.m| && Range(p, 8) <= s0.live
    requires var block := Range(q, ElemOff(Size(ty.elem), |elems|));
             && s1.live == s0.live + block && block !! s0.live && q + ElemOff(Size(ty.elem), |elems|) <= |s1.m|
             && Agree(s0.m, s1.m, s0.live) && s1.written == s0.written
    requires Aligned(q, Align(ty.elem))
    requires s2.live == s1.live && Frame(s1, s2, Range(p, 8)) && Get32(s2.m, p) == q && Get32(s2.m, p + 4) == |elems|
    requires ElemsLowered(s2, s3, ty.elem, |elems|, |elems|, q, elems)
    ensures Lowered(s0, s3, ty, p, VList(elems))
  {
    var block := Range(q, ElemOff(Size(ty.elem), |elems|));
    assert Frame(s0, s1, Range(p, 8));
    FrameTrans(s0, s1, s2, Range(p, 8), Range(p, 8));
    FrameTrans(s0, s2, s3, Range(p, 8), block);
    assert Range(p, 4) <= Range(p, 8) && Range(p + 4, 4) <= Range(p, 8);
    AgreeGet32(s2.m, s3.m, p);
    AgreeGet32(s2.m, s3.m, p + 4);
    HoldsElemsFrame(s3.m, s3.live - s2.live, s3.m, s3.live - s0.live, ty.elem, |elems|, |elems|, q, elems);
  }
}
