/**
 What it means for linear memory to hold a value (`Holds`), and the reference
 loader of the Canonical ABI (`Load`).

 `Holds` is an assertion about an address and a set of out-of-line bytes, the
 `blocks` that the value may refer to.  It is stable under every change of memory
 that spares the value's own slot and its blocks (`HoldsFrame`), and it determines
 what is loaded (`HoldsLoad`).
 */
module AbiMemory {
  import opened Wrappers
  import opened Utf8
  import opened AbiLayout

  type Memory = seq<Byte>

  const ADDRESS_SPACE: nat := 0x1_0000_0000

  function Get16(m: Memory, p: nat): nat
    requires p + 2 <= |m|
  {
    m[p] as int + 0x100 * m[p + 1] as int
  }

  function Get32(m: Memory, p: nat): nat
    requires p + 4 <= |m|
  {
    m[p] as int + 0x100 * m[p + 1] as int + 0x1_0000 * m[p + 2] as int + 0x100_0000 * m[p + 3] as int
  }

  /** `DataView.setUint8`, little endian like its companions; out-of-range values wrap. */
  function Put8(m: Memory, p: nat, n: nat): Memory
    requires p + 1 <= |m|
  {
    m[p := n % 0x100]
  }

  function Put16(m: Memory, p: nat, n: nat): Memory
    requires p + 2 <= |m|
  {
    m[p := n % 0x100][p + 1 := n / 0x100 % 0x100]
  }

  function Put32(m: Memory, p: nat, n: nat): Memory
    requires p + 4 <= |m|
  {
    m[p := n % 0x100][p + 1 := n / 0x100 % 0x100][p + 2 := n / 0x1_0000 % 0x100][p + 3 := n / 0x100_0000 % 0x100]
  }

  lemma GetPut16(m: Memory, p: nat, n: nat)
    requires p + 2 <= |m| && n < 0x1_0000
    ensures Get16(Put16(m, p, n), p) == n
  {
  }

  lemma GetPut32(m: Memory, p: nat, n: nat)
    requires p + 4 <= |m| && n < ADDRESS_SPACE
    ensures Get32(Put32(m, p, n), p) == n
  {
    assert n / 0x1_0000 == n / 0x100 / 0x100;
    assert n / 0x100_0000 == n / 0x1_0000 / 0x100;
    var m' := Put32(m, p, n);
    assert m'[p] == n % 0x100 && m'[p + 1] == n / 0x100 % 0x100;
    assert m'[p + 2] == n / 0x1_0000 % 0x100 && m'[p + 3] == n / 0x100_0000 % 0x100;
  }

  /** The number four bytes stand for, the lowest address holding the least significant. */
  predicate Spells(b0: Byte, b1: Byte, b2: Byte, b3: Byte, n: nat) {
    n == b0 as int + 256 * b1 as int + 65536 * b2 as int + 16777216 * b3 as int
  }

  /** What the guest finds in the bytes of a word that was stored, and what is read from bytes it stored. */
  lemma LittleEndian32(m: Memory, p: nat, n: nat)
    requires p + 4 <= |m| && n < 4294967296
    ensures var m' := Put32(m, p, n);
            && |m'| == |m| && (forall a :: 0 <= a < |m| && !(p <= a < p + 4) ==> m'[a] == m[a])
            && Spells(m'[p], m'[p + 1], m'[p + 2], m'[p + 3], n)
    ensures Get32(m, p) == n <==> Spells(m[p], m[p + 1], m[p + 2], m[p + 3], n)
  {
    var m' := Put32(m, p, n);
    GetPut32(m, p, n);
    hide Put32;
    assert Get32(m', p) == n;
  }

  lemma LittleEndian16(m: Memory, p: nat, n: nat)
    requires p + 2 <= |m| && n < 0x1_0000
    ensures var m' := Put16(m, p, n);
            && |m'| == |m| && (forall a :: 0 <= a < |m| && !(p <= a < p + 2) ==> m'[a] == m[a])
            && Spells(m'[p], m'[p + 1], 0, 0, n)
    ensures Get16(m, p) == n <==> Spells(m[p], m[p + 1], 0, 0, n)
  {
  }

  predicate Between(p: nat, a: nat, n: nat) { p <= a < p + n }

  function Range(p: nat, n: nat): set<nat> {
    set a: nat | a < p + n && Between(p, a, n)
  }

  // ----- values in memory -------------------------------------------------------

  /** Memory `m` holds `v` of type `ty` at `p`, with all out-of-line bytes in `blocks`. */
  ghost predicate Holds(m: Memory, blocks: set<nat>, ty: Ty, p: nat, v: Val)
    decreases ty, 0
  {
    && p + Size(ty) <= |m|
    && match ty
       case U8 => v.VNum? && v.n == m[p]
       case U16 => v.VNum? && v.n == Get16(m, p)
       case U32 => v.VNum? && v.n == Get32(m, p)
       case Str =>
         && v.VStr?
         && var q, n := Get32(m, p), Get32(m, p + 4);
         && q + n <= |m| && Range(q, n) <= blocks && m[q..q + n] == EncodeUnits(v.units)
       case Record(names, slots, _, _) =>
         && v.VRecord? && |names| == |slots| && v.fields.Keys == (set s | s in names)
         && HoldsSlots(m, blocks, slots, |slots|, p, FieldVals(names, v.fields))
       case Tuple(slots, _, _) =>
         && v.VTuple? && |v.elems| == |slots|
         && HoldsSlots(m, blocks, slots, |slots|, p, v.elems)
       case Variant(cases, _, _, payloadOffset32) =>
         && v.VVariant? && |m| > p && m[p] < |cases|
         && var c := cases[m[p]];
         && v.tag == c.tag && v.payload.Some? == c.payload.Some?
         && (c.payload.Some? ==> Holds(m, blocks, c.payload.value, p + payloadOffset32, v.payload.value))
       case List(elem, _, _) =>
         && v.VList?
         && var q, n := Get32(m, p), Get32(m, p + 4);
         && n == |v.elems| && Aligned(q, Align(elem))
         && q + ElemOff(Size(elem), n) <= |m| && Range(q, ElemOff(Size(elem), n)) <= blocks
         && HoldsElems(m, blocks, elem, n, q, v.elems)
  }

  ghost predicate HoldsSlot(m: Memory, blocks: set<nat>, s: Slot, p: nat, v: Val)
    decreases s, 0
  {
    Holds(m, blocks, s.ty, p, v)
  }

  ghost predicate HoldsSlotAt(m: Memory, blocks: set<nat>, ss: seq<Slot>, i: nat, p: nat, vs: seq<Val>)
    requires i < |ss| && i < |vs|
    decreases ss, 0
  {
    HoldsSlot(m, blocks, ss[i], p + Off(ss, i), vs[i])
  }

  /** The first `k` slots of a record or tuple at `p` hold the first `k` values. */
  ghost predicate HoldsSlots(m: Memory, blocks: set<nat>, ss: seq<Slot>, k: nat, p: nat, vs: seq<Val>)
    requires k <= |ss|
    decreases ss, 1
  {
    k <= |vs| && forall i :: 0 <= i < k ==> HoldsSlotAt(m, blocks, ss, i, p, vs)
  }

  ghost predicate HoldsElemAt(m: Memory, blocks: set<nat>, elem: Ty, i: nat, q: nat, vs: seq<Val>)
    requires i < |vs|
    decreases elem, 1
  {
    Holds(m, blocks, elem, q + ElemOff(Size(elem), i), vs[i])
  }

  ghost predicate HoldsElems(m: Memory, blocks: set<nat>, elem: Ty, k: nat, q: nat, vs: seq<Val>)
    decreases elem, 2
  {
    k <= |vs| && forall i :: 0 <= i < k ==> HoldsElemAt(m, blocks, elem, i, q, vs)
  }

  function FieldVals(names: seq<string>, fields: map<string, Val>): (vs: seq<Val>)
    requires forall s :: s in names ==> s in fields
    ensures |vs| == |names|
  {
    seq(|names|, i requires 0 <= i < |names| => fields[names[i]])
  }

  /** `m2` keeps the bytes of `m1` at the addresses in `kept`. */
  ghost predicate Agree(m1: Memory, m2: Memory, kept: set<nat>) {
    |m1| <= |m2| && forall a :: a in kept && a < |m1| ==> m2[a] == m1[a]
  }

  lemma AgreeGet32(m1: Memory, m2: Memory, p: nat)
    requires p + 4 <= |m1| && Agree(m1, m2, Range(p, 4))
    ensures Get32(m2, p) == Get32(m1, p)
  {
    assert p in Range(p, 4) && p + 1 in Range(p, 4) && p + 2 in Range(p, 4) && p + 3 in Range(p, 4);
  }

  lemma AgreeSlice(m1: Memory, m2: Memory, q: nat, n: nat)
    requires q + n <= |m1| && Agree(m1, m2, Range(q, n))
    ensures m2[q..q + n] == m1[q..q + n]
  {
    forall a: nat | Between(q, a, n) ensures m2[a] == m1[a] {
      assert a in Range(q, n);
    }
  }

  /** A value survives any change that spares its slot and its blocks. */
  lemma {:induction false} HoldsFrame(m1: Memory, b1: set<nat>, m2: Memory, b2: set<nat>, ty: Ty, p: nat, v: Val)
    requires WellFormed(ty) && Holds(m1, b1, ty, p, v)
    requires b1 <= b2 && Agree(m1, m2, b1) && Agree(m1, m2, Range(p, Size(ty)))
    ensures Holds(m2, b2, ty, p, v)
    decreases ty, 1
  {
    match ty
    case U8 => assert p in Range(p, 1);
    case U16 => assert p in Range(p, 2) && p + 1 in Range(p, 2);
    case U32 => AgreeGet32(m1, m2, p);
    case Str => HoldsStringFrame(m1, b1, m2, b2, p, v);
    case Record(names, slots, _, _) =>
      HoldsSlotsFrame(m1, b1, m2, b2, slots, |slots|, p, FieldVals(names, v.fields));
    case Tuple(slots, _, _) =>
      HoldsSlotsFrame(m1, b1, m2, b2, slots, |slots|, p, v.elems);
    case Variant(_, _, _, _) => HoldsVariantFrame(m1, b1, m2, b2, ty, p, v);
    case List(_, _, _) => HoldsListFrame(m1, b1, m2, b2, ty, p, v);
  }

  lemma PairFrame(m1: Memory, m2: Memory, p: nat)
    requires p + 8 <= |m1| && Agree(m1, m2, Range(p, 8))
    ensures Get32(m2, p) == Get32(m1, p) && Get32(m2, p + 4) == Get32(m1, p + 4)
  {
    assert Range(p, 4) <= Range(p, 8) && Range(p + 4, 4) <= Range(p, 8);
    AgreeGet32(m1, m2, p);
    AgreeGet32(m1, m2, p + 4);
  }

  lemma HoldsStringFrame(m1: Memory, b1: set<nat>, m2: Memory, b2: set<nat>, p: nat, v: Val)
    requires Holds(m1, b1, Str, p, v)
    requires b1 <= b2 && Agree(m1, m2, b1) && Agree(m1, m2, Range(p, Size(Str)))
    ensures Holds(m2, b2, Str, p, v)
  {
    PairFrame(m1, m2, p);
    AgreeSlice(m1, m2, Get32(m1, p), Get32(m1, p + 4));
  }

  lemma {:induction false} HoldsVariantFrame(m1: Memory, b1: set<nat>, m2: Memory, b2: set<nat>, ty: Ty, p: nat, v: Val)
    requires ty.Variant? && WellFormed(ty) && Holds(m1, b1, ty, p, v)
    requires b1 <= b2 && Agree(m1, m2, b1) && Agree(m1, m2, Range(p, Size(ty)))
    ensures Holds(m2, b2, ty, p, v)
    decreases ty, 0
  {
    var here, c := Range(p, Size(ty)), ty.cases[m1[p]];
    assert p in here;
    if c.payload.Some? {
      CaseBounds(ty.cases, m1[p]);
      assert Range(p + ty.payloadOffset32, Size(c.payload.value)) <= here;
      HoldsFrame(m1, b1, m2, b2, c.payload.value, p + ty.payloadOffset32, v.payload.value);
    }
  }

  lemma {:induction false} HoldsListFrame(m1: Memory, b1: set<nat>, m2: Memory, b2: set<nat>, ty: Ty, p: nat, v: Val)
    requires ty.List? && WellFormed(ty) && Holds(m1, b1, ty, p, v)
    requires b1 <= b2 && Agree(m1, m2, b1) && Agree(m1, m2, Range(p, Size(ty)))
    ensures Holds(m2, b2, ty, p, v)
    decreases ty, 0
  {
    PairFrame(m1, m2, p);
    HoldsElemsFrame(m1, b1, m2, b2, ty.elem, |v.elems|, |v.elems|, Get32(m1, p), v.elems);
  }

  lemma {:induction false} HoldsSlotFrame(m1: Memory, b1: set<nat>, m2: Memory, b2: set<nat>, s: Slot, p: nat, v: Val)
    requires WellFormedSlot(s) && HoldsSlot(m1, b1, s, p, v)
    requires b1 <= b2 && Agree(m1, m2, b1) && Agree(m1, m2, Range(p, Size(s.ty)))
    ensures HoldsSlot(m2, b2, s, p, v)
    decreases s, 0
  {
    HoldsFrame(m1, b1, m2, b2, s.ty, p, v);
  }

  lemma {:induction false} HoldsSlotsFrame(m1: Memory, b1: set<nat>, m2: Memory, b2: set<nat>, ss: seq<Slot>,
                                           k: nat, p: nat, vs: seq<Val>)
    requires WellFormedSlots(ss) && k <= |ss| && HoldsSlots(m1, b1, ss, k, p, vs)
    requires b1 <= b2 && Agree(m1, m2, b1) && Agree(m1, m2, Range(p, End(ss, k)))
    ensures HoldsSlots(m2, b2, ss, k, p, vs)
    decreases ss, 0
  {
    forall i | 0 <= i < k ensures HoldsSlotAt(m2, b2, ss, i, p, vs) {
      assert HoldsSlotAt(m1, b1, ss, i, p, vs);
      EndMonotone(ss, i + 1, k);
      assert Range(p + Off(ss, i), ss[i].size32) <= Range(p, End(ss, k));
      HoldsSlotFrame(m1, b1, m2, b2, ss[i], p + Off(ss, i), vs[i]);
    }
  }

  /** The first `k` of `n` elements survive a change that spares their slots and blocks. */
  lemma {:induction false} HoldsElemsFrame(m1: Memory, b1: set<nat>, m2: Memory, b2: set<nat>, elem: Ty, k: nat,
                                           n: nat, q: nat, vs: seq<Val>)
    requires WellFormed(elem) && k <= n && HoldsElems(m1, b1, elem, k, q, vs)
    requires b1 <= b2 && Agree(m1, m2, b1)
    requires Range(q, ElemOff(Size(elem), k)) <= b1 || Agree(m1, m2, Range(q, ElemOff(Size(elem), k)))
    ensures HoldsElems(m2, b2, elem, k, q, vs)
    decreases elem, 2
  {
    hide Holds;
    forall i | 0 <= i < k ensures HoldsElemAt(m2, b2, elem, i, q, vs) {
      assert HoldsElemAt(m1, b1, elem, i, q, vs);
      ElemOffMonotone(Size(elem), i + 1, k);
      assert Range(q + ElemOff(Size(elem), i), Size(elem)) <= Range(q, ElemOff(Size(elem), k));
      HoldsFrame(m1, b1, m2, b2, elem, q + ElemOff(Size(elem), i), vs[i]);
    }
  }

  // ----- the reference loader -----------------------------------------------------

  /**
   `load` of the Canonical ABI at offset `p`; `None` where the runtime throws
   (address out of bounds, discriminant out of range, misaligned list).
   */
  ghost function Load(m: Memory, ty: Ty, p: nat): Option<Val>
    requires WellFormed(ty)
    decreases ty, 0
  {
    match ty
    case U8 => if p + 1 <= |m| then Some(VNum(m[p])) else None
    case U16 => if p + 2 <= |m| then Some(VNum(Get16(m, p))) else None
    case U32 => if p + 4 <= |m| then Some(VNum(Get32(m, p))) else None
    case Str =>
      if p + 8 > |m| then None
      else
        var q, n := Get32(m, p), Get32(m, p + 4);
        if q + n <= |m| then Some(VStr(TextDecode(m[q..q + n]))) else None
    case Record(names, slots, _, _) =>
      var vs := LoadSlots(m, slots, |slots|, p);
      if vs.Some? then Some(VRecord(Zip(names, vs.value, |names|))) else None
    case Tuple(slots, _, _) =>
      var vs := LoadSlots(m, slots, |slots|, p);
      if vs.Some? then Some(VTuple(vs.value)) else None
    case Variant(cases, _, _, payloadOffset32) =>
      if p + 1 > |m| || m[p] >= |cases| then None
      else
        var c := cases[m[p]];
        if c.payload.None? then Some(VVariant(c.tag, None))
        else
          var v := Load(m, c.payload.value, p + payloadOffset32);
          if v.Some? then Some(VVariant(c.tag, v)) else None
    case List(elem, _, _) =>
      if p + 8 > |m| || !Aligned(Get32(m, p), Align(elem)) then None
      else
        var vs := LoadElems(m, elem, Get32(m, p + 4), Get32(m, p));
        if vs.Some? then Some(VList(vs.value)) else None
  }

  ghost function LoadSlot(m: Memory, s: Slot, p: nat): Option<Val>
    requires WellFormedSlot(s)
    decreases s, 0
  {
    Load(m, s.ty, p)
  }

  ghost function LoadSlots(m: Memory, ss: seq<Slot>, k: nat, p: nat): (vs: Option<seq<Val>>)
    requires k <= |ss| && WellFormedSlots(ss)
    ensures vs.Some? ==> |vs.value| == k
    decreases ss, k
  {
    if k == 0 then Some([])
    else
      var vs := LoadSlots(m, ss, k - 1, p);
      if vs.None? then None
      else
        var v := LoadSlot(m, ss[k - 1], p + Off(ss, k - 1));
        if v.Some? then Some(vs.value + [v.value]) else None
  }

  ghost function LoadElem(m: Memory, elem: Ty, q: nat, i: nat): Option<Val>
    requires WellFormed(elem)
    decreases elem, 1
  {
    Load(m, elem, q + ElemOff(Size(elem), i))
  }

  ghost function LoadElems(m: Memory, elem: Ty, k: nat, q: nat): (vs: Option<seq<Val>>)
    requires WellFormed(elem)
    ensures vs.Some? ==> |vs.value| == k
    decreases elem, k + 2
  {
    if k == 0 then Some([])
    else
      var vs := LoadElems(m, elem, k - 1, q);
      if vs.None? then None
      else
        var v := LoadElem(m, elem, q, k - 1);
        if v.Some? then Some(vs.value + [v.value]) else None
  }

  /** The object built by assigning the fields in order. */
  function Zip(names: seq<string>, vs: seq<Val>, k: nat): map<string, Val>
    requires k <= |names| && k <= |vs|
  {
    if k == 0 then map[] else Zip(names, vs, k - 1)[names[k - 1] := vs[k - 1]]
  }

  lemma {:induction false} ZipKeys(names: seq<string>, vs: seq<Val>, k: nat)
    requires k <= |names| && k <= |vs|
    ensures Zip(names, vs, k).Keys == (set s | s in names[..k])
  {
    if k > 0 {
      ZipKeys(names, vs, k - 1);
      assert names[..k] == names[..k - 1] + [names[k - 1]];
    }
  }

  lemma {:induction false} ZipAt(names: seq<string>, vs: seq<Val>, k: nat, i: nat)
    requires i < k <= |names| && k <= |vs| && Distinct(names)
    ensures names[i] in Zip(names, vs, k) && Zip(names, vs, k)[names[i]] == vs[i]
  {
    if i < k - 1 {
      ZipAt(names, vs, k - 1, i);
      assert names[i] != names[k - 1];
    }
  }

  // ----- what is read, and where ----------------------------------------------------

  /** Text: the word at `p` is its address and the next word its length. */
  lemma LoadText(m: Memory, p: nat)
    requires p + 8 <= |m|
    ensures var q, n := Get32(m, p), Get32(m, p + 4);
            && (Load(m, Str, p).Some? <==> q + n <= |m|)
            && (q + n <= |m| ==> Load(m, Str, p) == Some(VStr(TextDecode(m[q..q + n]))))
  {
    hide TextDecode;
  }

  lemma {:induction false} LoadSlotsAt(m: Memory, ss: seq<Slot>, k: nat, p: nat, i: nat)
    requires i < k <= |ss| && WellFormedSlots(ss) && LoadSlots(m, ss, k, p).Some?
    ensures WellFormed(ss[i].ty) && Load(m, ss[i].ty, p + Off(ss, i)) == Some(LoadSlots(m, ss, k, p).value[i])
  {
    hide Load, WellFormed;
    assert WellFormedSlot(ss[i]);
    if i < k - 1 {
      LoadSlotsAt(m, ss, k - 1, p, i);
    }
  }

  /** A record: each field stands at its offset. */
  lemma LoadField(m: Memory, ty: Ty, p: nat, i: nat)
    requires ty.Record? && WellFormed(ty) && i < |ty.slots| && Load(m, ty, p).Some?
    ensures Load(m, ty, p).value.VRecord? && WellFormed(ty.slots[i].ty)
    ensures var fields := Load(m, ty, p).value.fields;
            && fields.Keys == (set s | s in ty.names) && |ty.names| == |ty.slots|
            && Load(m, ty.slots[i].ty, p + Off(ty.slots, i)) == Some(fields[ty.names[i]])
  {
    var vs := LoadSlots(m, ty.slots, |ty.slots|, p).value;
    LoadSlotsAt(m, ty.slots, |ty.slots|, p, i);
    ZipKeys(ty.names, vs, |ty.names|);
    assert ty.names[..|ty.names|] == ty.names;
    ZipAt(ty.names, vs, |ty.names|, i);
  }

  /** A tuple: each element stands at its offset. */
  lemma LoadPosition(m: Memory, ty: Ty, p: nat, i: nat)
    requires ty.Tuple? && WellFormed(ty) && i < |ty.slots| && Load(m, ty, p).Some?
    ensures Load(m, ty, p).value.VTuple? && |Load(m, ty, p).value.elems| == |ty.slots| && WellFormed(ty.slots[i].ty)
    ensures Load(m, ty.slots[i].ty, p + Off(ty.slots, i)) == Some(Load(m, ty, p).value.elems[i])
  {
    LoadSlotsAt(m, ty.slots, |ty.slots|, p, i);
  }

  /** A variant: the byte at `p` numbers the case, and the payload stands at the payload's offset. */
  lemma LoadCase(m: Memory, ty: Ty, p: nat)
    requires ty.Variant? && WellFormed(ty) && p < |m|
    ensures Load(m, ty, p).Some? ==> m[p] < |ty.cases| && Load(m, ty, p).value.VVariant?
    ensures m[p] < |ty.cases| ==>
              var c, r := ty.cases[m[p]], Load(m, ty, p);
              && (c.payload == None ==> r == Some(VVariant(c.tag, None)))
              && (c.payload != None ==>
                    var inner := Load(m, c.payload.value, p + ty.payloadOffset32);
                    r == if inner == None then None else Some(VVariant(c.tag, inner)))
  {
  }

  lemma {:induction false} LoadElemsAt(m: Memory, elem: Ty, k: nat, q: nat, i: nat)
    requires i < k && WellFormed(elem) && LoadElems(m, elem, k, q).Some?
    ensures Load(m, elem, q + ElemOff(Size(elem), i)) == Some(LoadElems(m, elem, k, q).value[i])
  {
    hide Load;
    if i < k - 1 {
      LoadElemsAt(m, elem, k - 1, q, i);
    }
  }

  /** A list: address and length as for text, and element `i` stands `i` sizes after the address. */
  lemma LoadItem(m: Memory, elem: Ty, size: nat, align: Alignment, p: nat, elems: seq<Val>, i: nat)
    requires WellFormed(elem) && WellFormed(List(elem, size, align))
    requires Load(m, List(elem, size, align), p) == Some(VList(elems))
    ensures p + 8 <= |m| && |elems| == Get32(m, p + 4) && Aligned(Get32(m, p), Align(elem))
    ensures i < |elems| ==> Load(m, elem, Get32(m, p) + ElemOff(Size(elem), i)) == Some(elems[i])
  {
    var n := Get32(m, p + 4);
    assert p + 8 <= |m| && LoadElems(m, elem, n, Get32(m, p)) == Some(elems);
    hide LoadElems, Load, WellFormed, Get32;
    if i < n {
      LoadElemsAt(m, elem, n, Get32(m, p), i);
    }
  }

  // ----- loading what memory holds ------------------------------------------------

  /** `v` with every string replaced by what encoding and decoding makes of it. */
  function Decoded(v: Val): Val {
    match v
    case VNum(_) => v
    case VStr(units) => VStr(TextDecode(EncodeUnits(units)))
    case VRecord(fields) => VRecord(map s | s in fields :: Decoded(fields[s]))
    case VTuple(elems) => VTuple(seq(|elems|, i requires 0 <= i < |elems| => Decoded(elems[i])))
    case VVariant(tag, None) => v
    case VVariant(tag, Some(payload)) => VVariant(tag, Some(Decoded(payload)))
    case VList(elems) => VList(seq(|elems|, i requires 0 <= i < |elems| => Decoded(elems[i])))
  }

  /** No string of `v` has a lone surrogate or a leading byte order mark. */
  predicate Plain(v: Val) {
    match v
    case VNum(_) => true
    case VStr(units) => NoLoneSurrogates(units) && !(units != [] && units[0] == BOM)
    case VRecord(fields) => forall s :: s in fields ==> Plain(fields[s])
    case VTuple(elems) => forall i :: 0 <= i < |elems| ==> Plain(elems[i])
    case VVariant(_, None) => true
    case VVariant(_, Some(payload)) => Plain(payload)
    case VList(elems) => forall i :: 0 <= i < |elems| ==> Plain(elems[i])
  }

  lemma {:induction false} DecodedPlain(v: Val)
    ensures Decoded(v) == v <==> Plain(v)
  {
    match v
    case VNum(_) =>
    case VStr(units) => TextRoundTrip(units);
    case VRecord(fields) =>
      forall s | s in fields ensures Decoded(fields[s]) == fields[s] <==> Plain(fields[s]) { DecodedPlain(fields[s]); }
      var d := map s | s in fields :: Decoded(fields[s]);
      assert d == fields <==> forall s :: s in fields ==> d[s] == fields[s];
    case VTuple(elems) =>
      forall i | 0 <= i < |elems| ensures Decoded(elems[i]) == elems[i] <==> Plain(elems[i]) { DecodedPlain(elems[i]); }
      DecodedSeq(elems, Decoded(v).elems);
    case VVariant(_, None) =>
    case VVariant(_, Some(payload)) => DecodedPlain(payload);
    case VList(elems) =>
      forall i | 0 <= i < |elems| ensures Decoded(elems[i]) == elems[i] <==> Plain(elems[i]) { DecodedPlain(elems[i]); }
      DecodedSeq(elems, Decoded(v).elems);
  }

  lemma DecodedSeq(elems: seq<Val>, d: seq<Val>)
    requires |d| == |elems|
    ensures d == elems <==> forall i :: 0 <= i < |elems| ==> d[i] == elems[i]
  {
  }

  lemma ZipDecoded(names: seq<string>, fields: map<string, Val>, loaded: seq<Val>)
    requires Distinct(names) && fields.Keys == (set s | s in names) && |loaded| == |names|
    requires forall i :: 0 <= i < |names| ==> loaded[i] == Decoded(FieldVals(names, fields)[i])
    ensures var z := Zip(names, loaded, |names|);
            z.Keys == fields.Keys && forall s :: s in fields ==> z[s] == Decoded(fields[s])
  {
    ZipKeys(names, loaded, |names|);
    assert names[..|names|] == names;
    var z := Zip(names, loaded, |names|);
    forall s | s in fields ensures s in z && z[s] == Decoded(fields[s]) {
      var i :| 0 <= i < |names| && names[i] == s;
      ZipAt(names, loaded, |names|, i);
    }
  }

  /** Loading a held value gives that value, up to the decoding of its strings. */
  lemma {:induction false} HoldsLoad(m: Memory, blocks: set<nat>, ty: Ty, p: nat, v: Val)
    requires WellFormed(ty) && Holds(m, blocks, ty, p, v)
    ensures Load(m, ty, p) == Some(Decoded(v))
    decreases ty, 1
  {
    match ty
    case U8 =>
    case U16 =>
    case U32 =>
    case Str =>
    case Record(_, _, _, _) => HoldsLoadRecord(m, blocks, ty, p, v);
    case Tuple(slots, _, _) =>
      HoldsLoadSlots(m, blocks, slots, |slots|, p, v.elems);
      assert LoadSlots(m, slots, |slots|, p).value == Decoded(v).elems;
    case Variant(cases, _, _, payloadOffset32) =>
      var c := cases[m[p]];
      if c.payload.Some? {
        HoldsLoad(m, blocks, c.payload.value, p + payloadOffset32, v.payload.value);
      }
    case List(_, _, _) => HoldsLoadList(m, blocks, ty, p, v);
  }

  lemma {:induction false} HoldsLoadRecord(m: Memory, blocks: set<nat>, ty: Ty, p: nat, v: Val)
    requires ty.Record? && WellFormed(ty) && Holds(m, blocks, ty, p, v)
    ensures Load(m, ty, p) == Some(Decoded(v))
    decreases ty, 0
  {
    var names, slots := ty.names, ty.slots;
    HoldsLoadSlots(m, blocks, slots, |slots|, p, FieldVals(names, v.fields));
    var loaded := LoadSlots(m, slots, |slots|, p).value;
    ZipDecoded(names, v.fields, loaded);
    assert Zip(names, loaded, |names|) == Decoded(v).fields;
  }

  lemma {:induction false} HoldsLoadList(m: Memory, blocks: set<nat>, ty: Ty, p: nat, v: Val)
    requires ty.List? && WellFormed(ty) && Holds(m, blocks, ty, p, v)
    ensures Load(m, ty, p) == Some(Decoded(v))
    decreases ty, 0
  {
    HoldsLoadElems(m, blocks, ty.elem, |v.elems|, Get32(m, p), v.elems);
    assert LoadElems(m, ty.elem, |v.elems|, Get32(m, p)).value == Decoded(v).elems;
  }

  lemma {:induction false} HoldsLoadSlot(m: Memory, blocks: set<nat>, s: Slot, p: nat, v: Val)
    requires WellFormedSlot(s) && HoldsSlot(m, blocks, s, p, v)
    ensures LoadSlot(m, s, p) == Some(Decoded(v))
    decreases s, 0
  {
    HoldsLoad(m, blocks, s.ty, p, v);
  }

  lemma {:induction false} HoldsLoadSlots(m: Memory, blocks: set<nat>, ss: seq<Slot>, k: nat, p: nat, vs: seq<Val>)
    requires k <= |ss| && WellFormedSlots(ss) && HoldsSlots(m, blocks, ss, k, p, vs)
    ensures LoadSlots(m, ss, k, p).Some?
    ensures forall i :: 0 <= i < k ==> LoadSlots(m, ss, k, p).value[i] == Decoded(vs[i])
    decreases ss, k
  {
    hide Holds, Load, WellFormed, Decoded;
    if k > 0 {
      HoldsLoadSlots(m, blocks, ss, k - 1, p, vs);
      assert HoldsSlotAt(m, blocks, ss, k - 1, p, vs);
      HoldsLoadSlot(m, blocks, ss[k - 1], p + Off(ss, k - 1), vs[k - 1]);
      assert LoadSlots(m, ss, k, p) == Some(LoadSlots(m, ss, k - 1, p).value + [Decoded(vs[k - 1])]);
    }
  }

  lemma {:induction false} HoldsLoadElem(m: Memory, blocks: set<nat>, elem: Ty, i: nat, q: nat, vs: seq<Val>)
    requires WellFormed(elem) && i < |vs| && HoldsElemAt(m, blocks, elem, i, q, vs)
    ensures LoadElem(m, elem, q, i) == Some(Decoded(vs[i]))
    decreases elem, 2
  {
    HoldsLoad(m, blocks, elem, q + ElemOff(Size(elem), i), vs[i]);
  }

  lemma {:induction false} HoldsLoadElems(m: Memory, blocks: set<nat>, elem: Ty, k: nat, q: nat, vs: seq<Val>)
    requires WellFormed(elem) && HoldsElems(m, blocks, elem, k, q, vs)
    ensures LoadElems(m, elem, k, q).Some?
    ensures forall i :: 0 <= i < k ==> LoadElems(m, elem, k, q).value[i] == Decoded(vs[i])
    decreases elem, k + 3
  {
    hide Holds, Load, WellFormed, Decoded;
    if k > 0 {
      HoldsLoadElems(m, blocks, elem, k - 1, q, vs);
      HoldsLoadElem(m, blocks, elem, k - 1, q, vs);
      assert LoadElems(m, elem, k, q) == Some(LoadElems(m, elem, k - 1, q).value + [Decoded(vs[k - 1])]);
    }
  }
}
