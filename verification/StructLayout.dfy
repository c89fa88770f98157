/**
  The generator of request and reply structs: explicit padding placed so that
  `repr(C)` has nothing to add.
*/
module StructLayout {
  import opened Basics

  const HEADER_ALIGN: nat := 4

  /** The types that fields are emitted with. */
  datatype RustType = U8 | I16 | U16 | I32 | U32 | I64 | U64 | ByteArray(n: nat)

  /** What the compiler gives them. */
  function SizeOf(t: RustType): nat {
    match t
    case U8 => 1
    case I16 => 2
    case U16 => 2
    case I32 => 4
    case U32 => 4
    case I64 => 8
    case U64 => 8
    case ByteArray(n) => n
  }

  function AlignOf(t: RustType): (a: nat)
    ensures IsAlign(a)
  {
    if t.ByteArray? then 1 else SizeOf(t)
  }

  /** A field as the generator sees it: the type it is emitted with, and the size
      and alignment that it is taken to have. */
  datatype Field = Field(rust: RustType, size: nat, align: nat)

  predicate IsAlign(a: nat) {
    a == 1 || a == 2 || a == 4 || a == 8
  }

  /** The size is the compiler's, and the alignment is at least as strict. */
  predicate Sound(f: Field) {
    IsAlign(f.align) && f.size == SizeOf(f.rust) && AlignOf(f.rust) <= f.align
  }

  predicate AllSound(fields: seq<Field>) {
    forall i :: 0 <= i < |fields| ==> Sound(fields[i])
  }

  /** Besides, integers have their own alignment, and sizes are multiples of it. */
  predicate SoundType(t: Option<Field>) {
    t.Some? ==>
      && Sound(t.value) && Slack(t.value.size, t.value.align) == 0
      && (!t.value.rust.ByteArray? ==> t.value.align == AlignOf(t.value.rust))
  }

  /** Types that are emitted as Rust integers. */
  function ScalarType(name: string): (r: Option<Field>)
    ensures SoundType(r)
  {
    match name
    case "int" => Some(Field(I32, 4, 4))
    case "short int" => Some(Field(I16, 2, 2))
    case "char" => Some(Field(U8, 1, 1))
    case "unsigned char" => Some(Field(U8, 1, 1))
    case "unsigned short" => Some(Field(U16, 2, 2))
    case "unsigned int" => Some(Field(U32, 4, 4))
    case "unsigned __int64" => Some(Field(U64, 8, 8))
    case "data_size_t" => Some(Field(U32, 4, 4))
    case "obj_handle_t" => Some(Field(U32, 4, 4))
    case "atom_t" => Some(Field(U32, 4, 4))
    case "process_id_t" => Some(Field(U32, 4, 4))
    case "thread_id_t" => Some(Field(U32, 4, 4))
    case "ioctl_code_t" => Some(Field(U32, 4, 4))
    case "user_handle_t" => Some(Field(U32, 4, 4))
    case "timeout_t" => Some(Field(I64, 8, 8))
    case "abstime_t" => Some(Field(I64, 8, 8))
    case "lparam_t" => Some(Field(U64, 8, 8))
    case "apc_param_t" => Some(Field(U64, 8, 8))
    case "mem_size_t" => Some(Field(U64, 8, 8))
    case "file_pos_t" => Some(Field(U64, 8, 8))
    case "client_ptr_t" => Some(Field(U64, 8, 8))
    case "affinity_t" => Some(Field(U64, 8, 8))
    case "mod_handle_t" => Some(Field(U64, 8, 8))
    case "object_id_t" => Some(Field(U64, 8, 8))
    case "d3dkmt_handle_t" => Some(Field(U32, 4, 4))
    case "desktop_shm_t" => Some(Field(U32, 4, 4))
    case "queue_shm_t" => Some(Field(U32, 4, 4))
    case "input_shm_t" => Some(Field(U32, 4, 4))
    case "object_shm_t" => Some(Field(U32, 4, 4))
    case _ => None
  }

  /** Unions, emitted as byte arrays. */
  function UnionType(name: string): (r: Option<Field>)
    ensures SoundType(r)
  {
    match name
    case "union apc_call" => Some(Field(ByteArray(64), 64, 8))
    case "union apc_result" => Some(Field(ByteArray(40), 40, 8))
    case "union debug_event_data" => Some(Field(ByteArray(160), 160, 8))
    case "union hw_input" => Some(Field(ByteArray(40), 40, 8))
    case "union irp_params" => Some(Field(ByteArray(32), 32, 8))
    case "union message_data" => Some(Field(ByteArray(48), 48, 8))
    case "union select_op" => Some(Field(ByteArray(264), 264, 8))
    case "union tcp_connection" => Some(Field(ByteArray(60), 60, 4))
    case "union udp_endpoint" => Some(Field(ByteArray(32), 32, 4))
    case _ => None
  }

  /** Structs, emitted as byte arrays. */
  function StructType(name: string): (r: Option<Field>)
    ensures SoundType(r)
  {
    match name
    case "struct async_data" => Some(Field(ByteArray(40), 40, 8))
    case "struct context_data" => Some(Field(ByteArray(1720), 1720, 8))
    case "struct cursor_pos" => Some(Field(ByteArray(24), 24, 8))
    case "struct filesystem_event" => Some(Field(ByteArray(12), 12, 4))
    case "struct generic_map" => Some(Field(ByteArray(16), 16, 4))
    case "struct handle_info" => Some(Field(ByteArray(32), 32, 8))
    case "struct luid" => Some(Field(ByteArray(8), 8, 4))
    case "struct luid_attr" => Some(Field(ByteArray(12), 12, 4))
    case "struct object_attributes" => Some(Field(ByteArray(16), 16, 4))
    case "struct object_type_info" => Some(Field(ByteArray(44), 44, 4))
    case "struct obj_locator" => Some(Field(ByteArray(16), 16, 8))
    case "struct pe_image_info" => Some(Field(ByteArray(88), 88, 8))
    case "struct process_info" => Some(Field(ByteArray(40), 40, 8))
    case "struct property_data" => Some(Field(ByteArray(16), 16, 8))
    case "struct rawinput_device" => Some(Field(ByteArray(12), 12, 4))
    case "struct rectangle" => Some(Field(ByteArray(16), 16, 4))
    case "struct startup_info_data" => Some(Field(ByteArray(96), 96, 4))
    case "struct thread_info" => Some(Field(ByteArray(40), 40, 8))
    case "struct user_apc" => Some(Field(ByteArray(40), 40, 8))
    case _ => None
  }

  /** The protocol's types. */
  function TypeMap(name: string): (r: Option<Field>)
    ensures SoundType(r)
  {
    var scalar, union := ScalarType(name), UnionType(name);
    if scalar.Some? then scalar else if union.Some? then union else StructType(name)
  }

  /** The remainder of an offset modulo an alignment. */
  function Slack(offset: nat, align: nat): (r: nat)
    requires IsAlign(align)
    ensures r < align
  {
    if align == 1 then 0 else if align == 2 then offset % 2 else if align == 4 then offset % 4 else offset % 8
  }

  lemma SlackIsRemainder(offset: nat, align: nat)
    requires IsAlign(align)
    ensures Slack(offset, align) == offset % align
  {
  }

  lemma PadFits(offset: nat, align: nat)
    requires IsAlign(align)
    ensures Slack(offset, align) != 0 ==> Slack(offset + (align - Slack(offset, align)), align) == 0
  {
  }

  /** An offset padded up to an alignment. */
  function PadTo(offset: nat, align: nat): (r: nat)
    requires IsAlign(align)
    ensures offset <= r < offset + align && Slack(r, align) == 0
    ensures Slack(offset, align) == 0 ==> r == offset
  {
    PadFits(offset, align);
    if Slack(offset, align) != 0 then offset + (align - Slack(offset, align)) else offset
  }

  /** A member of the emitted struct: a `[u8; n]` or a field. */
  datatype Item = Pad(n: nat) | Member(field: Field)

  function PadItems(offset: nat, align: nat): seq<Item>
    requires IsAlign(align)
  {
    if Slack(offset, align) != 0 then [Pad(align - Slack(offset, align))] else []
  }

  /** What is emitted for fields that start at `offset`. */
  function Emitted(fields: seq<Field>, offset: nat): seq<Item>
    requires AllSound(fields)
  {
    if fields == [] then PadItems(offset, 8)
    else
      var at := PadTo(offset, fields[0].align);
      PadItems(offset, fields[0].align) + ([Member(fields[0])] + Emitted(fields[1..], at + fields[0].size))
  }

  /** Where the generator believes the fields to be. */
  function Offsets(fields: seq<Field>, offset: nat): (r: seq<nat>)
    requires AllSound(fields)
    ensures |r| == |fields|
  {
    if fields == [] then []
    else
      var at := PadTo(offset, fields[0].align);
      [at] + Offsets(fields[1..], at + fields[0].size)
  }

  function EndOffset(fields: seq<Field>, offset: nat): nat
    requires AllSound(fields)
  {
    if fields == [] then PadTo(offset, 8)
    else EndOffset(fields[1..], PadTo(offset, fields[0].align) + fields[0].size)
  }

  // ---- repr(C) ----

  function ItemSize(item: Item): nat {
    match item
    case Pad(n) => n
    case Member(f) => SizeOf(f.rust)
  }

  function ItemAlign(item: Item): (a: nat)
    ensures IsAlign(a)
  {
    match item
    case Pad(_) => 1
    case Member(f) => AlignOf(f.rust)
  }

  function ReprEnd(items: seq<Item>, offset: nat): nat {
    if items == [] then offset
    else ReprEnd(items[1..], PadTo(offset, ItemAlign(items[0])) + ItemSize(items[0]))
  }

  /** The offsets that `repr(C)` gives to the fields, in order. */
  function MemberOffsets(items: seq<Item>, offset: nat): seq<nat> {
    if items == [] then []
    else
      var at := PadTo(offset, ItemAlign(items[0]));
      (if items[0].Member? then [at] else []) + MemberOffsets(items[1..], at + ItemSize(items[0]))
  }

  function MaxAlign(items: seq<Item>): (a: nat)
    ensures a == 4 || a == 8
  {
    if items == [] then HEADER_ALIGN
    else
      var rest := MaxAlign(items[1..]);
      if ItemAlign(items[0]) > rest then ItemAlign(items[0]) else rest
  }

  /** The size of the struct: its end rounded to its strictest member. */
  function ReprSize(items: seq<Item>, header: nat): nat {
    PadTo(ReprEnd(items, header), MaxAlign(items))
  }

  /** `repr(C)` adds no byte of its own before any member. */
  ghost predicate Tight(items: seq<Item>, offset: nat) {
    items == [] ||
    (Slack(offset, ItemAlign(items[0])) == 0 && Tight(items[1..], offset + ItemSize(items[0])))
  }

  lemma NaturalDivides(offset: nat, align: nat, natural: nat)
    requires IsAlign(align) && IsAlign(natural) && natural <= align && Slack(offset, align) == 0
    ensures Slack(offset, natural) == 0
  {
    var q := offset / align;
    if align == 8 {
      assert offset == 4 * (2 * q) && offset == 2 * (4 * q);
    } else if align == 4 {
      assert offset == 2 * (2 * q);
    }
  }

  /** An item that needs no implicit padding. */
  lemma ItemStep(item: Item, at: nat, rest: seq<Item>)
    requires Slack(at, ItemAlign(item)) == 0
    ensures
      var items, next := [item] + rest, at + ItemSize(item);
      && ReprEnd(items, at) == ReprEnd(rest, next)
      && MemberOffsets(items, at) == (if item.Member? then [at] else []) + MemberOffsets(rest, next)
      && (Tight(items, at) <==> Tight(rest, next))
  {
  }

  /** A pad item reaches exactly the padded offset. */
  lemma PadStep(offset: nat, align: nat, rest: seq<Item>)
    requires IsAlign(align)
    ensures
      var items, at := PadItems(offset, align) + rest, PadTo(offset, align);
      && ReprEnd(items, offset) == ReprEnd(rest, at)
      && MemberOffsets(items, offset) == MemberOffsets(rest, at)
      && (Tight(items, offset) <==> Tight(rest, at))
  {
    if Slack(offset, align) != 0 {
      ItemStep(Pad(align - Slack(offset, align)), offset, rest);
    } else {
      assert PadItems(offset, align) + rest == rest;
    }
  }

  /** A field with its pad in front ends where the generator says. */
  lemma FieldStep(f: Field, offset: nat, rest: seq<Item>)
    requires Sound(f)
    ensures
      var items := PadItems(offset, f.align) + ([Member(f)] + rest);
      var at := PadTo(offset, f.align);
      && ReprEnd(items, offset) == ReprEnd(rest, at + f.size)
      && MemberOffsets(items, offset) == [at] + MemberOffsets(rest, at + f.size)
      && (Tight(items, offset) <==> Tight(rest, at + f.size))
  {
    var at := PadTo(offset, f.align);
    NaturalDivides(at, f.align, AlignOf(f.rust));
    ItemStep(Member(f), at, rest);
    PadStep(offset, f.align, [Member(f)] + rest);
  }

  lemma Unfold(fields: seq<Field>, offset: nat)
    requires AllSound(fields) && fields != []
    ensures
      var f, at := fields[0], PadTo(offset, fields[0].align);
      && Emitted(fields, offset) == PadItems(offset, f.align) + ([Member(f)] + Emitted(fields[1..], at + f.size))
      && EndOffset(fields, offset) == EndOffset(fields[1..], at + f.size)
      && Offsets(fields, offset) == [at] + Offsets(fields[1..], at + f.size)
  {
  }

  /** The compiler's layout of what is emitted is the generator's own. */
  ghost predicate Agree(fields: seq<Field>, offset: nat)
    requires AllSound(fields)
  {
    var items := Emitted(fields, offset);
    && ReprEnd(items, offset) == EndOffset(fields, offset)
    && MemberOffsets(items, offset) == Offsets(fields, offset)
    && Tight(items, offset)
  }

  lemma EmptyAgrees(offset: nat)
    ensures Agree([], offset)
  {
    PadStep(offset, 8, []);
    assert PadItems(offset, 8) + [] == PadItems(offset, 8);
  }

  lemma OneMoreAgrees(fields: seq<Field>, offset: nat)
    requires AllSound(fields) && fields != []
    requires Agree(fields[1..], PadTo(offset, fields[0].align) + fields[0].size)
    ensures Agree(fields, offset)
  {
    var f := fields[0];
    FieldStep(f, offset, Emitted(fields[1..], PadTo(offset, f.align) + f.size));
    Unfold(fields, offset);
  }

  lemma {:induction false} LayoutsAgree(fields: seq<Field>, offset: nat)
    requires AllSound(fields)
    ensures Agree(fields, offset)
  {
    if fields == [] {
      EmptyAgrees(offset);
    } else {
      LayoutsAgree(fields[1..], PadTo(offset, fields[0].align) + fields[0].size);
      OneMoreAgrees(fields, offset);
    }
  }

  lemma {:induction false} EndIsAligned(fields: seq<Field>, offset: nat)
    requires AllSound(fields)
    ensures Slack(EndOffset(fields, offset), 8) == 0 && EndOffset(fields, offset) >= offset
  {
    if fields != [] {
      EndIsAligned(fields[1..], PadTo(offset, fields[0].align) + fields[0].size);
    }
  }

  /** `compute_body_size`. */
  method ComputeBodySize(fields: seq<Field>, header: nat) returns (size: nat)
    requires AllSound(fields)
    ensures header + size == EndOffset(fields, header)
  {
    var offset, i := header, 0;
    while i < |fields|
      invariant i <= |fields| && offset >= header
      invariant EndOffset(fields, header) == EndOffset(fields[i..], offset)
    {
      assert fields[i..][0] == fields[i] && fields[i..][1..] == fields[i + 1..];
      if Slack(offset, fields[i].align) != 0 {
        offset := offset + (fields[i].align - Slack(offset, fields[i].align));
      }
      offset := offset + fields[i].size;
      i := i + 1;
    }
    if offset % 8 != 0 {
      offset := offset + (8 - offset % 8);
    }
    size := offset - header;
  }

  lemma EmittedStep(done: seq<Item>, fields: seq<Field>, offset: nat)
    requires AllSound(fields) && fields != []
    ensures
      var f, at := fields[0], PadTo(offset, fields[0].align);
      && done + Emitted(fields, offset) ==
           (done + PadItems(offset, f.align) + [Member(f)]) + Emitted(fields[1..], at + f.size)
      && EndOffset(fields, offset) == EndOffset(fields[1..], at + f.size)
  {
    var f, at := fields[0], PadTo(offset, fields[0].align);
    Unfold(fields, offset);
    Regroup(done, PadItems(offset, f.align), [Member(f)], Emitted(fields[1..], at + f.size));
  }

  lemma Regroup(a: seq<Item>, b: seq<Item>, c: seq<Item>, d: seq<Item>)
    ensures a + (b + (c + d)) == (a + b + c) + d
  {
  }

  /** Emit a pad if the offset is not a multiple of the alignment. */
  method EmitPad(items: seq<Item>, offset: nat, align: nat) returns (items': seq<Item>, offset': nat)
    requires IsAlign(align)
    ensures items' == items + PadItems(offset, align) && offset' == PadTo(offset, align)
  {
    items', offset' := items, offset;
    if Slack(offset, align) != 0 {
      var pad := align - Slack(offset, align);
      items' := items + [Pad(pad)];
      offset' := offset + pad;
    }
  }

  /** Emit one field with its pad in front; the rest is emitted behind it. */
  method EmitField(items: seq<Item>, offset: nat, fields: seq<Field>, i: nat)
    returns (items': seq<Item>, offset': nat)
    requires AllSound(fields) && i < |fields|
    ensures items' + Emitted(fields[i + 1..], offset') == items + Emitted(fields[i..], offset)
    ensures EndOffset(fields[i + 1..], offset') == EndOffset(fields[i..], offset)
  {
    EmittedStep(items, fields[i..], offset);
    assert fields[i..][1..] == fields[i + 1..];
    var field := fields[i];
    items', offset' := EmitPad(items, offset, field.align);
    items' := items' + [Member(field)];
    offset' := offset' + field.size;
  }

  /** The struct body as it is written out, and the size asserted for it: the one
      that the C header lists, or else its own.  The assertion holds if and only
      if a listed size is the one computed here. */
  method GenerateStruct(fields: seq<Field>, header: nat, listed: Option<nat>)
    returns (items: seq<Item>, offset: nat, asserted: nat)
    requires AllSound(fields)
    ensures items == Emitted(fields, header) && offset == EndOffset(fields, header)
    ensures asserted == (if listed.Some? then listed.value else offset)
    ensures ReprSize(items, header) == asserted <==> listed.None? || listed.value == EndOffset(fields, header)
  {
    items, offset := [], header;
    var i := 0;
    while i < |fields|
      invariant i <= |fields|
      invariant Emitted(fields, header) == items + Emitted(fields[i..], offset)
      invariant EndOffset(fields, header) == EndOffset(fields[i..], offset)
    {
      items, offset := EmitField(items, offset, fields, i);
      i := i + 1;
    }
    items, offset := EmitPad(items, offset, 8);
    asserted := if listed.Some? then listed.value else offset;
    PaddingAgreesWithReprC(fields, header);
  }

  /** Every field starts at a multiple of its declared alignment, after the
      field before it has ended, between the two bounds. */
  ghost predicate ApartAt(at: seq<nat>, fields: seq<Field>, lo: nat, hi: nat)
    requires |at| == |fields| && AllSound(fields)
  {
    && (forall i :: 0 <= i < |at| ==> Slack(at[i], fields[i].align) == 0 && lo <= at[i])
    && (forall i, j :: 0 <= i < j < |at| ==> at[i] + fields[i].size <= at[j])
    && (forall i :: 0 <= i < |at| ==> at[i] + fields[i].size <= hi)
  }

  ghost predicate Apart(fields: seq<Field>, offset: nat)
    requires AllSound(fields)
  {
    ApartAt(Offsets(fields, offset), fields, offset, EndOffset(fields, offset))
  }

  lemma OneMoreInFront(first: nat, rest: seq<nat>, fields: seq<Field>, lo: nat, hi: nat)
    requires |fields| == |rest| + 1 && AllSound(fields)
    requires lo <= first && Slack(first, fields[0].align) == 0 && first + fields[0].size <= hi
    requires ApartAt(rest, fields[1..], first + fields[0].size, hi)
    ensures ApartAt([first] + rest, fields, lo, hi)
  {
    var at := [first] + rest;
    forall i | 1 <= i < |at|
      ensures at[i] == rest[i - 1] && fields[i] == fields[1..][i - 1] && first + fields[0].size <= at[i]
    {
    }
  }

  lemma OneMoreApart(fields: seq<Field>, offset: nat)
    requires AllSound(fields) && fields != []
    requires Apart(fields[1..], PadTo(offset, fields[0].align) + fields[0].size)
    ensures Apart(fields, offset)
  {
    var first := PadTo(offset, fields[0].align);
    var next := first + fields[0].size;
    Unfold(fields, offset);
    EndIsAligned(fields[1..], next);
    OneMoreInFront(first, Offsets(fields[1..], next), fields, offset, EndOffset(fields[1..], next));
  }

  lemma {:induction false} FieldsAreApart(fields: seq<Field>, offset: nat)
    requires AllSound(fields)
    ensures Apart(fields, offset)
  {
    if fields != [] {
      FieldsAreApart(fields[1..], PadTo(offset, fields[0].align) + fields[0].size);
      OneMoreApart(fields, offset);
    }
  }

  /** For every field list: the emitted struct has its fields where the
      generator computed them, each at a multiple of its alignment, `repr(C)`
      adds nothing anywhere, and its size is the header plus the body size that
      the metadata records - an aligned header alone if there are no fields. */
  lemma PaddingAgreesWithReprC(fields: seq<Field>, header: nat)
    requires AllSound(fields)
    ensures
      var items := Emitted(fields, header);
      && MemberOffsets(items, header) == Offsets(fields, header)
      && (forall i :: 0 <= i < |fields| ==> Offsets(fields, header)[i] % fields[i].align == 0)
      && Tight(items, header)
      && ReprSize(items, header) == EndOffset(fields, header)
      && (fields == [] && header % 8 == 0 ==> ReprSize(items, header) == header)
  {
    LayoutsAgree(fields, header);
    EndIsAligned(fields, header);
    NaturalDivides(EndOffset(fields, header), 8, MaxAlign(Emitted(fields, header)));
    FieldsAreApart(fields, header);
    forall i | 0 <= i < |fields| ensures Offsets(fields, header)[i] % fields[i].align == 0 {
      SlackIsRemainder(Offsets(fields, header)[i], fields[i].align);
    }
  }
}
