/**
 The types of the gate's imports, with the sizes, alignments and offsets that the
 generated module passes to its lift and lower functions.

 The numbers are the module's own; the lemmas derive them from the layout equations of
 the Canonical ABI, which makes every theorem about well-formed types one about them.
 Options, results and enumerations are the variants that they stand for.
 */
module GateTypes {
  import opened Wrappers
  import opened Utf8
  import opened AbiLayout
  import opened AbiMemory

  const BYTES: Ty := List(U8, 1, 1)

  const VERB: Ty :=
    Variant([Case("get", None), Case("post", None), Case("put", None), Case("patch", None), Case("delete", None)],
            1, 1, 1)

  const HEADER: Ty := Tuple([Slot(Str, 8, 4), Slot(Str, 8, 4)], 16, 4)

  const HEADERS: Ty := Variant([Case("none", None), Case("some", Some(List(HEADER, 16, 4)))], 12, 4, 4)

  const OPTIONAL_BYTES: Ty := Variant([Case("none", None), Case("some", Some(BYTES))], 12, 4, 4)

  /** The parameter of both `call` imports. */
  const REQUEST: Ty :=
    Record(["method", "url", "headers", "payload"],
           [Slot(VERB, 1, 1), Slot(Str, 8, 4), Slot(HEADERS, 12, 4), Slot(OPTIONAL_BYTES, 12, 4)], 36, 4)

  const RESPONSE: Ty := Record(["code", "payload"], [Slot(U16, 2, 2), Slot(BYTES, 8, 4)], 12, 4)

  const PLACEHOLDER_ERROR: Ty :=
    Variant([Case("egress-denied", Some(Str)), Case("placeholder-denied", Some(Str)),
             Case("placeholder-unknown", Some(Str)), Case("placeholder-no-user-context", None),
             Case("upstream-error", Some(Str))], 12, 4, 4)

  /** The result of `call` with and without placeholders, of `kv-store.get`, and of `kv-store.put`. */
  const PLACEHOLDER_RESULT: Ty := Variant([Case("ok", Some(RESPONSE)), Case("err", Some(PLACEHOLDER_ERROR))], 16, 4, 4)

  const HTTP_RESULT: Ty := Variant([Case("ok", Some(RESPONSE)), Case("err", Some(Str))], 16, 4, 4)

  const GET_RESULT: Ty := Variant([Case("ok", Some(OPTIONAL_BYTES)), Case("err", Some(Str))], 16, 4, 4)

  const PUT_RESULT: Ty := Variant([Case("ok", None), Case("err", Some(Str))], 12, 4, 4)

  /** The sizes and alignments that the generated code writes next to its lift and lower functions. */
  lemma PrimitiveLayout(elem: Ty)
    ensures Size(U8) == 1 && Align(U8) == 1 && Size(U16) == 2 && Align(U16) == 2 && Size(U32) == 4 && Align(U32) == 4
    ensures Size(Str) == 8 && Align(Str) == 4
    ensures forall n, a :: Size(List(elem, n, a)) == 8 && Align(List(elem, n, a)) == 4
  {
  }

  // ----- layouts ------------------------------------------------------------------------

  lemma AlignCons(s: Slot, ss: seq<Slot>)
    ensures SlotsAlign([s] + ss) == MaxAlign(s.align32, SlotsAlign(ss))
  {
    assert ([s] + ss)[1..] == ss;
  }

  lemma TwoSlots(a: Slot, b: Slot)
    ensures SlotsAlign([a, b]) == MaxAlign(a.align32, b.align32)
    ensures Off([a, b], 0) == 0 && Off([a, b], 1) == AlignTo(a.size32, b.align32)
    ensures End([a, b], 2) == AlignTo(a.size32, b.align32) + b.size32
  {
    AlignCons(b, []);
    AlignCons(a, [b]);
    assert [a] + [b] == [a, b];
    assert End([a, b], 1) == a.size32;
  }

  function PayloadAlign(c: Case): Alignment {
    if c.payload.Some? then Align(c.payload.value) else 1
  }

  function PayloadSize(c: Case): nat {
    if c.payload.Some? then Size(c.payload.value) else 0
  }

  lemma CaseCons(c: Case, cs: seq<Case>)
    ensures CasesAlign([c] + cs) == MaxAlign(PayloadAlign(c), CasesAlign(cs))
    ensures CasesSize([c] + cs) == Max(PayloadSize(c), CasesSize(cs))
  {
    assert ([c] + cs)[1..] == cs;
  }

  lemma TwoLayout(c: Case, d: Case)
    ensures CasesAlign([c, d]) == MaxAlign(PayloadAlign(c), PayloadAlign(d))
    ensures CasesSize([c, d]) == Max(PayloadSize(c), PayloadSize(d))
  {
    hide PayloadAlign, PayloadSize;
    NoCases();
    CaseCons(d, []);
    CaseCons(c, [d]);
    assert [c] + [d] == [c, d] && [d] + [] == [d];
  }

  /** An option or a result: one byte for the tag, then the payload on its alignment. */
  lemma TwoCases(c: Case, d: Case, size: nat, align: Alignment, offset: nat)
    requires c.tag != d.tag
    requires (c.payload.Some? ==> WellFormed(c.payload.value)) && (d.payload.Some? ==> WellFormed(d.payload.value))
    requires align == MaxAlign(PayloadAlign(c), PayloadAlign(d)) && offset == AlignTo(1, align)
    requires size == AlignTo(offset + Max(PayloadSize(c), PayloadSize(d)), align)
    ensures WellFormed(Variant([c, d], size, align, offset))
  {
    hide PayloadAlign, PayloadSize, AlignTo;
    TwoLayout(c, d);
    assert CasesLayout([c, d], size, align, offset);
    hide CasesLayout;
    assert Tags([c, d]) == [c.tag, d.tag];
  }

  /** `response`: the code at 0, the payload at 4. */
  lemma ResponseLayout()
    ensures WellFormed(RESPONSE) && Off(RESPONSE.slots, 0) == 0 && Off(RESPONSE.slots, 1) == 4
  {
    var ss := RESPONSE.slots;
    TwoSlots(ss[0], ss[1]);
    assert WellFormedSlot(ss[0]) && WellFormedSlot(ss[1]);
  }

  lemma HeadersLayout()
    ensures WellFormed(HEADERS) && WellFormedSlot(Slot(HEADERS, 12, 4))
  {
    var ss := HEADER.slots;
    TwoSlots(ss[0], ss[1]);
    assert WellFormedSlot(ss[0]) && WellFormedSlot(ss[1]);
    assert WellFormed(HEADER);
    TwoCases(HEADERS.cases[0], HEADERS.cases[1], 12, 4, 4);
  }

  lemma OptionalBytesLayout()
    ensures WellFormed(OPTIONAL_BYTES) && WellFormedSlot(Slot(OPTIONAL_BYTES, 12, 4))
  {
    TwoCases(OPTIONAL_BYTES.cases[0], OPTIONAL_BYTES.cases[1], 12, 4, 4);
  }

  /** Five cases and what the last four of them come to. */
  lemma FiveCases(cs: seq<Case>, align: Alignment, size: nat)
    requires |cs| == 5
    requires align == MaxAlign(PayloadAlign(cs[0]), MaxAlign(PayloadAlign(cs[1]), MaxAlign(PayloadAlign(cs[2]),
                        MaxAlign(PayloadAlign(cs[3]), PayloadAlign(cs[4])))))
    requires size == Max(PayloadSize(cs[0]), Max(PayloadSize(cs[1]), Max(PayloadSize(cs[2]),
                       Max(PayloadSize(cs[3]), PayloadSize(cs[4])))))
    ensures CasesAlign(cs) == align && CasesSize(cs) == size
  {
    hide PayloadAlign, PayloadSize, CasesAlign, CasesSize;
    NoCases();
    CaseCons(cs[4], []);
    CaseCons(cs[3], cs[4..]);
    CaseCons(cs[2], cs[3..]);
    CaseCons(cs[1], cs[2..]);
    CaseCons(cs[0], cs[1..]);
    assert cs[4..] == [cs[4]] + [] && cs[3..] == [cs[3]] + cs[4..] && cs[2..] == [cs[2]] + cs[3..];
    assert cs[1..] == [cs[1]] + cs[2..] && cs == [cs[0]] + cs[1..];
  }

  lemma NoCases()
    ensures CasesAlign([]) == 1 && CasesSize([]) == 0
  {
  }

  lemma VerbLayout()
    ensures WellFormed(VERB) && WellFormedSlot(Slot(VERB, 1, 1))
  {
    FiveCases(VERB.cases, 1, 0);
    assert CasesLayout(VERB.cases, 1, 1, 1);
    var tags := Tags(VERB.cases);
    assert |tags[0]| == 3 && |tags[1]| == 4 && |tags[2]| == 3 && |tags[3]| == 5 && |tags[4]| == 6;
    assert tags[0][0] == 'g' && tags[2][0] == 'p';
    assert Distinct(tags);
    hide CasesLayout, Distinct;
  }

  lemma PlaceholderErrorLayout()
    ensures WellFormed(PLACEHOLDER_ERROR)
  {
    var cs := PLACEHOLDER_ERROR.cases;
    FiveCases(cs, 4, 8);
    assert CasesLayout(cs, 12, 4, 4);
    var tags := Tags(cs);
    assert |tags[0]| == 13 && |tags[1]| == 18 && |tags[2]| == 19 && |tags[3]| == 27 && |tags[4]| == 14;
    assert Distinct(tags);
    hide CasesLayout, Distinct;
  }

  /** `request`: the four fields stand at 0, 4, 12 and 24, in 36 bytes. */
  lemma RequestOffsets()
    ensures Off(REQUEST.slots, 0) == 0 && Off(REQUEST.slots, 1) == 4
    ensures Off(REQUEST.slots, 2) == 12 && Off(REQUEST.slots, 3) == 24
    ensures SlotsLayout(REQUEST.slots, 36, 4)
  {
    var ss := REQUEST.slots;
    assert End(ss, 1) == 1;
    assert End(ss, 2) == 12;
    assert End(ss, 3) == 24;
    assert End(ss, 4) == 36;
    TwoSlots(ss[2], ss[3]);
    AlignCons(ss[1], [ss[2], ss[3]]);
    AlignCons(ss[0], [ss[1]] + [ss[2], ss[3]]);
    assert ss == [ss[0]] + ([ss[1]] + [ss[2], ss[3]]);
  }

  lemma RequestSlots()
    ensures WellFormedSlots(REQUEST.slots)
  {
    hide VERB, HEADERS, OPTIONAL_BYTES, WellFormed, WellFormedSlot, WellFormedSlots;
    VerbLayout();
    HeadersLayout();
    OptionalBytesLayout();
    StringLayout();
    FourSlots(Slot(VERB, 1, 1), Slot(Str, 8, 4), Slot(HEADERS, 12, 4), Slot(OPTIONAL_BYTES, 12, 4));
  }

  lemma FourSlots(a: Slot, b: Slot, c: Slot, d: Slot)
    requires WellFormedSlot(a) && WellFormedSlot(b) && WellFormedSlot(c) && WellFormedSlot(d)
    ensures WellFormedSlots([a, b, c, d])
  {
  }

  lemma FieldNames()
    ensures Distinct(REQUEST.names) && |REQUEST.names| == 4
  {
    var names := REQUEST.names;
    assert |names[0]| == 6 && |names[1]| == 3 && |names[2]| == 7 && |names[3]| == 7;
    assert names[2][0] == 'h' && names[3][0] == 'p';
  }

  lemma RequestLayout()
    ensures WellFormed(REQUEST)
  {
    RequestSlots();
    RequestOffsets();
    FieldNames();
    hide SlotsLayout, WellFormedSlots, Distinct, VERB, HEADERS, OPTIONAL_BYTES;
  }

  /** The results of the imports: in each the payload stands at 4. */
  lemma ResultLayouts()
    ensures WellFormed(PLACEHOLDER_RESULT) && WellFormed(HTTP_RESULT) && WellFormed(GET_RESULT)
    ensures WellFormed(PUT_RESULT)
  {
    hide WellFormed;
    ResponseLayout();
    OptionalBytesLayout();
    PlaceholderErrorLayout();
    StringLayout();
    TwoCases(PLACEHOLDER_RESULT.cases[0], PLACEHOLDER_RESULT.cases[1], 16, 4, 4);
    TwoCases(HTTP_RESULT.cases[0], HTTP_RESULT.cases[1], 16, 4, 4);
    TwoCases(GET_RESULT.cases[0], GET_RESULT.cases[1], 16, 4, 4);
    TwoCases(PUT_RESULT.cases[0], PUT_RESULT.cases[1], 12, 4, 4);
  }

  lemma StringLayout()
    ensures WellFormed(Str) && WellFormedSlot(Slot(Str, 8, 4))
  {
  }

  // ----- reading a request ----------------------------------------------------------------

  lemma RequestField(m: Memory, p: nat, fields: map<string, Val>, i: nat)
    requires i < 4 && WellFormed(REQUEST) && Load(m, REQUEST, p) == Some(VRecord(fields))
    ensures REQUEST.names[i] in fields && WellFormed(REQUEST.slots[i].ty)
    ensures Load(m, REQUEST.slots[i].ty, p + Off(REQUEST.slots, i)) == Some(fields[REQUEST.names[i]])
  {
    LoadField(m, REQUEST, p, i);
    assert REQUEST.names[i] in REQUEST.names;
    hide Load, WellFormed;
  }

  /** The request a guest stores at `p`: verb number, text, and the two options, each at its place. */
  lemma RequestRead(m: Memory, p: nat, fields: map<string, Val>)
    requires WellFormed(REQUEST) && Load(m, REQUEST, p) == Some(VRecord(fields))
    ensures "method" in fields && "url" in fields && "headers" in fields && "payload" in fields
    ensures WellFormed(VERB) && WellFormed(HEADERS) && WellFormed(OPTIONAL_BYTES)
    ensures Load(m, VERB, p) == Some(fields["method"]) && Load(m, Str, p + 4) == Some(fields["url"])
    ensures Load(m, HEADERS, p + 12) == Some(fields["headers"])
    ensures Load(m, OPTIONAL_BYTES, p + 24) == Some(fields["payload"])
  {
    hide Load, WellFormed, VERB, HEADERS, OPTIONAL_BYTES;
    RequestOffsets();
    hide Off, SlotsLayout;
    RequestField(m, p, fields, 0);
    RequestField(m, p, fields, 1);
    RequestField(m, p, fields, 2);
    RequestField(m, p, fields, 3);
  }

  /** The number of each verb. */
  lemma VerbRead(m: Memory, p: nat)
    requires p < |m|
    ensures WellFormed(VERB)
    ensures Load(m, VERB, p) == if m[p] == 0 then Some(VVariant("get", None))
                                else if m[p] == 1 then Some(VVariant("post", None))
                                else if m[p] == 2 then Some(VVariant("put", None))
                                else if m[p] == 3 then Some(VVariant("patch", None))
                                else if m[p] == 4 then Some(VVariant("delete", None))
                                else None
  {
    VerbLayout();
    LoadCase(m, VERB, p);
    hide Load, WellFormed;
  }
}
