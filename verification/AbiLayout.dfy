/**
 Types, values and memory layout of the Component Model Canonical ABI, for the
 part of it the runtime moves through linear memory.

 A `Ty` carries the same metadata as the runtime's closures (`size32`, `align32`,
 payload offsets).  `Size` and `Align` read it; `WellFormed` states the equations
 of the Canonical ABI (sections "Alignment" and "Element Size") that tie the
 metadata of every type to that of its parts.
 */
module AbiLayout {
  import opened Wrappers
  import opened Utf8

  type Alignment = a: int | a == 1 || a == 2 || a == 4 witness 1

  datatype Slot = Slot(ty: Ty, size32: nat, align32: Alignment)

  datatype Case = Case(tag: string, payload: Option<Ty>)

  datatype Ty =
    | U8
    | U16
    | U32
    | Str
    | Record(names: seq<string>, slots: seq<Slot>, size32: nat, align32: Alignment)
    | Tuple(slots: seq<Slot>, size32: nat, align32: Alignment)
    | Variant(cases: seq<Case>, size32: nat, align32: Alignment, payloadOffset32: nat)
    | List(elem: Ty, elemSize32: nat, elemAlign32: Alignment)

  datatype Val =
    | VNum(n: nat)
    | VStr(units: seq<CodeUnit>)
    | VRecord(fields: map<string, Val>)
    | VTuple(elems: seq<Val>)
    | VVariant(tag: string, payload: Option<Val>)
    | VList(elems: seq<Val>)

  // ----- alignment arithmetic --------------------------------------------------

  function Max(a: nat, b: nat): nat { if a < b then b else a }

  function MaxAlign(a: Alignment, b: Alignment): Alignment { if a < b then b else a }

  /** `p % a`, by cases so that the solver only meets constant divisors. */
  function Rem(p: nat, a: Alignment): nat {
    if a == 1 then 0 else if a == 2 then p % 2 else p % 4
  }

  predicate Aligned(p: nat, a: Alignment) { Rem(p, a) == 0 }

  /** The runtime's `rem = ptr % align; if (rem !== 0) ptr += align - rem`. */
  function AlignTo(p: nat, a: Alignment): (q: nat)
    ensures Aligned(q, a) && p <= q < p + a
  {
    if Rem(p, a) == 0 then p else p + a - Rem(p, a)
  }

  /** Aligned to the larger is aligned to the smaller. */
  lemma AlignedDown(p: nat, a: Alignment, b: Alignment)
    requires a <= b && Aligned(p, b)
    ensures Aligned(p, a)
  {
  }

  lemma AlignToLeast(x: nat, y: nat, a: Alignment)
    requires x <= y && Aligned(y, a)
    ensures AlignTo(x, a) <= y
  {
  }

  lemma RemAddHalves(k: nat, off: nat)
    ensures (2 * k + off) % 2 == off % 2
  {
  }

  lemma RemAddQuarters(k: nat, off: nat)
    ensures (4 * k + off) % 4 == off % 4
  {
  }

  lemma RemAdd(base: nat, off: nat, a: Alignment)
    requires Aligned(base, a)
    ensures Rem(base + off, a) == Rem(off, a)
  {
    if a == 2 {
      RemAddHalves(base / 2, off);
    } else if a == 4 {
      RemAddQuarters(base / 4, off);
    }
  }

  /** Aligning an offset from an aligned base aligns the address. */
  lemma AlignToShift(base: nat, off: nat, a: Alignment)
    requires Aligned(base, a)
    ensures AlignTo(base + off, a) == base + AlignTo(off, a)
    ensures Aligned(base + AlignTo(off, a), a)
  {
    RemAdd(base, off, a);
    RemAdd(base, AlignTo(off, a), a);
  }

  // ----- layout -----------------------------------------------------------------

  function DiscSize(n: nat): Alignment {
    if n <= 0x100 then 1 else if n <= 0x1_0000 then 2 else 4
  }

  function Align(ty: Ty): Alignment {
    match ty
    case U8 => 1
    case U16 => 2
    case U32 => 4
    case Str => 4
    case List(_, _, _) => 4
    case Record(_, _, _, align32) => align32
    case Tuple(_, _, align32) => align32
    case Variant(_, _, align32, _) => align32
  }

  function Size(ty: Ty): nat {
    match ty
    case U8 => 1
    case U16 => 2
    case U32 => 4
    case Str => 8
    case List(_, _, _) => 8
    case Record(_, _, size32, _) => size32
    case Tuple(_, size32, _) => size32
    case Variant(_, size32, _, _) => size32
  }

  function SlotsAlign(ss: seq<Slot>): Alignment {
    if ss == [] then 1 else MaxAlign(ss[0].align32, SlotsAlign(ss[1..]))
  }

  /** Offset just past the first `i` slots. */
  function End(ss: seq<Slot>, i: nat): nat
    requires i <= |ss|
  {
    if i == 0 then 0 else AlignTo(End(ss, i - 1), ss[i - 1].align32) + ss[i - 1].size32
  }

  /** Offset of slot `i`. */
  function Off(ss: seq<Slot>, i: nat): nat
    requires i < |ss|
  {
    AlignTo(End(ss, i), ss[i].align32)
  }

  function CasesAlign(cs: seq<Case>): Alignment {
    if cs == [] then 1
    else MaxAlign(if cs[0].payload.Some? then Align(cs[0].payload.value) else 1, CasesAlign(cs[1..]))
  }

  function CasesSize(cs: seq<Case>): nat {
    if cs == [] then 0
    else Max(if cs[0].payload.Some? then Size(cs[0].payload.value) else 0, CasesSize(cs[1..]))
  }

  predicate Distinct(names: seq<string>) {
    forall i, j :: 0 <= i < j < |names| ==> names[i] != names[j]
  }

  function Tags(cs: seq<Case>): (ts: seq<string>)
    ensures |ts| == |cs|
  {
    seq(|cs|, i requires 0 <= i < |cs| => cs[i].tag)
  }

  predicate SlotsLayout(ss: seq<Slot>, size32: nat, align32: Alignment) {
    && align32 == SlotsAlign(ss)
    && size32 == AlignTo(End(ss, |ss|), align32)
  }

  predicate CasesLayout(cs: seq<Case>, size32: nat, align32: Alignment, payloadOffset32: nat) {
    && align32 == MaxAlign(DiscSize(|cs|), CasesAlign(cs))
    && payloadOffset32 == AlignTo(DiscSize(|cs|), CasesAlign(cs))
    && size32 == AlignTo(payloadOffset32 + CasesSize(cs), align32)
  }

  /** A record or tuple ends, padded, on its own alignment. */
  lemma SlotsPadding(ss: seq<Slot>, size: nat, align: Alignment)
    requires SlotsLayout(ss, size, align)
    ensures End(ss, |ss|) <= size && Aligned(size, align)
  {
  }

  /** The metadata is that of the Canonical ABI; variants have fewer than 256 cases. */
  ghost predicate WellFormed(ty: Ty)
    decreases ty
  {
    match ty
    case U8 => true
    case U16 => true
    case U32 => true
    case Str => true
    case Record(names, slots, size32, align32) =>
      && |names| == |slots| && Distinct(names)
      && SlotsLayout(slots, size32, align32) && WellFormedSlots(slots)
    case Tuple(slots, size32, align32) =>
      && SlotsLayout(slots, size32, align32) && WellFormedSlots(slots)
    case Variant(cases, size32, align32, payloadOffset32) =>
      && 1 <= |cases| < 256 && Distinct(Tags(cases))
      && CasesLayout(cases, size32, align32, payloadOffset32)
      && forall i :: 0 <= i < |cases| ==> cases[i].payload.Some? ==> WellFormed(cases[i].payload.value)
    case List(elem, elemSize32, elemAlign32) =>
      && elemSize32 == Size(elem) && elemAlign32 == Align(elem) && WellFormed(elem)
  }

  ghost predicate WellFormedSlot(s: Slot)
    decreases s
  {
    s.size32 == Size(s.ty) && s.align32 == Align(s.ty) && WellFormed(s.ty)
  }

  ghost predicate WellFormedSlots(ss: seq<Slot>)
    decreases ss
  {
    forall i :: 0 <= i < |ss| ==> WellFormedSlot(ss[i])
  }

  // ----- layout lemmas ---------------------------------------------------------

  lemma {:induction false} SlotAlignBound(ss: seq<Slot>, i: nat)
    requires i < |ss|
    ensures ss[i].align32 <= SlotsAlign(ss)
  {
    if i > 0 {
      assert ss[i] == ss[1..][i - 1];
      SlotAlignBound(ss[1..], i - 1);
    }
  }

  lemma {:induction false} CaseBounds(cs: seq<Case>, i: nat)
    requires i < |cs| && cs[i].payload.Some?
    ensures Align(cs[i].payload.value) <= CasesAlign(cs)
    ensures Size(cs[i].payload.value) <= CasesSize(cs)
  {
    if i > 0 {
      assert cs[i] == cs[1..][i - 1];
      CaseBounds(cs[1..], i - 1);
    }
  }

  lemma {:induction false} EndMonotone(ss: seq<Slot>, i: nat, j: nat)
    requires i <= j <= |ss|
    ensures End(ss, i) <= End(ss, j)
    decreases j - i
  {
    if i < j {
      EndMonotone(ss, i, j - 1);
    }
  }

  /** Slots lie one after the other, each aligned, all inside the whole. */
  lemma SlotPlace(ss: seq<Slot>, i: nat, base: nat)
    requires i < |ss| && Aligned(base, SlotsAlign(ss))
    ensures AlignTo(base + End(ss, i), ss[i].align32) == base + Off(ss, i)
    ensures Aligned(base + Off(ss, i), ss[i].align32)
    ensures End(ss, i) <= Off(ss, i)
    ensures Off(ss, i) + ss[i].size32 == End(ss, i + 1) <= End(ss, |ss|) <= AlignTo(End(ss, |ss|), SlotsAlign(ss))
  {
    SlotAlignBound(ss, i);
    AlignedDown(base, ss[i].align32, SlotsAlign(ss));
    AlignToShift(base, End(ss, i), ss[i].align32);
    EndMonotone(ss, i + 1, |ss|);
  }

  /** A payload is aligned, starts after the discriminant and ends inside the variant. */
  lemma PayloadPlace(ty: Ty, i: nat, base: nat)
    requires ty.Variant? && CasesLayout(ty.cases, ty.size32, ty.align32, ty.payloadOffset32)
    requires i < |ty.cases| && ty.cases[i].payload.Some?
    requires Aligned(base, Align(ty))
    ensures Aligned(base + ty.payloadOffset32, Align(ty.cases[i].payload.value))
    ensures ty.payloadOffset32 >= 1
    ensures ty.payloadOffset32 + Size(ty.cases[i].payload.value) <= Size(ty)
  {
    var cs := ty.cases;
    CaseBounds(cs, i);
    AlignedDown(base, CasesAlign(cs), Align(ty));
    AlignToShift(base, DiscSize(|cs|), CasesAlign(cs));
    AlignedDown(base + ty.payloadOffset32, Align(cs[i].payload.value), CasesAlign(cs));
  }

  lemma SizeAligned(ty: Ty)
    requires WellFormed(ty)
    ensures Aligned(Size(ty), Align(ty))
  {
  }

  /** `i * size`, by repeated addition so that the solver only meets linear terms. */
  function ElemOff(size: nat, i: nat): nat {
    if i == 0 then 0 else ElemOff(size, i - 1) + size
  }

  lemma {:induction false} ElemOffIsProduct(size: nat, i: nat)
    ensures ElemOff(size, i) == i * size
  {
    if i > 0 {
      ElemOffIsProduct(size, i - 1);
    }
  }

  lemma {:induction false} ElemOffMonotone(size: nat, i: nat, j: nat)
    requires i <= j
    ensures ElemOff(size, i) <= ElemOff(size, j)
    decreases j - i
  {
    if i < j {
      ElemOffMonotone(size, i, j - 1);
    }
  }

  lemma {:induction false} ElemOffAligned(elem: Ty, i: nat)
    requires WellFormed(elem)
    ensures Aligned(ElemOff(Size(elem), i), Align(elem))
  {
    SizeAligned(elem);
    if i > 0 {
      ElemOffAligned(elem, i - 1);
      RemAdd(ElemOff(Size(elem), i - 1), Size(elem), Align(elem));
    }
  }

  /** Element `i` of an aligned array of `n` elements is aligned and inside the array. */
  lemma ElemPlace(elem: Ty, q: nat, i: nat, n: nat)
    requires WellFormed(elem) && Aligned(q, Align(elem)) && i < n
    ensures Aligned(q + ElemOff(Size(elem), i), Align(elem))
    ensures ElemOff(Size(elem), i) + Size(elem) == ElemOff(Size(elem), i + 1) <= ElemOff(Size(elem), n)
  {
    ElemOffAligned(elem, i);
    RemAdd(q, ElemOff(Size(elem), i), Align(elem));
    ElemOffMonotone(Size(elem), i + 1, n);
  }
}
