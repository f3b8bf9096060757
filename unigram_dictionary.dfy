/** The bit layout of the two flag bytes of the binary dictionary trie, as the
    constants of UnigramDictionary declare it: the flags byte that opens every
    character group, and the flags byte that opens every bigram or shortcut
    attribute entry. Decoding and encoding are pure functions between a byte
    and a record; attribute lists are decoded from the bytes that hold them. */
module UnigramDictionary {
  import opened Wrappers

  // The two high bits of a group's flags byte: how many bytes its children address takes.
  const MASK_GROUP_ADDRESS_TYPE: bv8 := 0xC0
  const FLAG_GROUP_ADDRESS_TYPE_NOADDRESS: bv8 := 0x00
  const FLAG_GROUP_ADDRESS_TYPE_ONEBYTE: bv8 := 0x40
  const FLAG_GROUP_ADDRESS_TYPE_TWOBYTES: bv8 := 0x80
  const FLAG_GROUP_ADDRESS_TYPE_THREEBYTES: bv8 := 0xC0

  // The single-bit properties of a character group.
  const FLAG_HAS_MULTIPLE_CHARS: bv8 := 0x20
  const FLAG_IS_TERMINAL: bv8 := 0x10
  const FLAG_HAS_SHORTCUT_TARGETS: bv8 := 0x08
  const FLAG_HAS_BIGRAMS: bv8 := 0x04

  // The flags byte that opens each bigram or shortcut entry.
  const FLAG_ATTRIBUTE_HAS_NEXT: bv8 := 0x80
  const FLAG_ATTRIBUTE_OFFSET_NEGATIVE: bv8 := 0x40
  const MASK_ATTRIBUTE_FREQUENCY: bv8 := 0x0F
  const MASK_ATTRIBUTE_ADDRESS_TYPE: bv8 := 0x30
  const FLAG_ATTRIBUTE_ADDRESS_TYPE_ONEBYTE: bv8 := 0x10
  const FLAG_ATTRIBUTE_ADDRESS_TYPE_TWOBYTES: bv8 := 0x20
  const FLAG_ATTRIBUTE_ADDRESS_TYPE_THREEBYTES: bv8 := 0x30

  // How many typing errors the correction search may assume.
  const DEFAULT_MAX_ERRORS: int := 2
  const MAX_ERRORS_FOR_TWO_WORDS: int := 1

  // Answers of the multiple-word suggestion steps.
  const FLAG_MULTIPLE_SUGGEST_ABORT: int := 0
  const FLAG_MULTIPLE_SUGGEST_SKIP: int := 1
  const FLAG_MULTIPLE_SUGGEST_CONTINUE: int := 2

  /** The width selector shared by children addresses and attribute offsets. */
  datatype AddressType = NoAddress | OneByte | TwoBytes | ThreeBytes

  /** The number of address bytes a selector announces. */
  function AddressBytes(t: AddressType): (n: nat)
    ensures n <= 3
    ensures (n == 0) == (t == NoAddress)
  {
    match t
    case NoAddress => 0
    case OneByte => 1
    case TwoBytes => 2
    case ThreeBytes => 3
  }

  /** The largest magnitude plus one that `width` big-endian bytes can hold. */
  function Pow256(width: nat): (p: nat)
    ensures p >= 1
  {
    if width == 0 then 1 else 256 * Pow256(width - 1)
  }

  // ------------------------------------------------------------------
  // Group flags
  // ------------------------------------------------------------------

  datatype GroupFlags = GroupFlags(
    childrenAddress: AddressType,
    hasMultipleChars: bool,
    isTerminal: bool,
    hasShortcutTargets: bool,
    hasBigrams: bool)

  /** The children address bits that stand for an address type. */
  function GroupAddressFlag(t: AddressType): (bits: bv8)
    ensures bits & MASK_GROUP_ADDRESS_TYPE == bits
  {
    match t
    case NoAddress => FLAG_GROUP_ADDRESS_TYPE_NOADDRESS
    case OneByte => FLAG_GROUP_ADDRESS_TYPE_ONEBYTE
    case TwoBytes => FLAG_GROUP_ADDRESS_TYPE_TWOBYTES
    case ThreeBytes => FLAG_GROUP_ADDRESS_TYPE_THREEBYTES
  }

  /** The children address type of a group flags byte: the two address bits
      always hold one of the four declared selectors. */
  function DecodeGroupAddressType(flags: bv8): (t: AddressType)
    ensures GroupAddressFlag(t) == flags & MASK_GROUP_ADDRESS_TYPE
  {
    var bits := flags & MASK_GROUP_ADDRESS_TYPE;
    if bits == FLAG_GROUP_ADDRESS_TYPE_NOADDRESS then NoAddress
    else if bits == FLAG_GROUP_ADDRESS_TYPE_ONEBYTE then OneByte
    else if bits == FLAG_GROUP_ADDRESS_TYPE_TWOBYTES then TwoBytes
    else ThreeBytes
  }

  function DecodeGroupFlags(flags: bv8): (g: GroupFlags)
    ensures AddressBytes(g.childrenAddress) == ((flags & MASK_GROUP_ADDRESS_TYPE) >> 6) as int
    ensures g.hasMultipleChars == (flags & FLAG_HAS_MULTIPLE_CHARS != 0)
    ensures g.isTerminal == (flags & FLAG_IS_TERMINAL != 0)
    ensures g.hasShortcutTargets == (flags & FLAG_HAS_SHORTCUT_TARGETS != 0)
    ensures g.hasBigrams == (flags & FLAG_HAS_BIGRAMS != 0)
  {
    GroupFlags(
      DecodeGroupAddressType(flags),
      flags & FLAG_HAS_MULTIPLE_CHARS != 0,
      flags & FLAG_IS_TERMINAL != 0,
      flags & FLAG_HAS_SHORTCUT_TARGETS != 0,
      flags & FLAG_HAS_BIGRAMS != 0)
  }

  function EncodeGroupFlags(g: GroupFlags): (flags: bv8)
    ensures flags & 0x03 == 0
    ensures DecodeGroupFlags(flags) == g
  {
    GroupAddressFlag(g.childrenAddress)
    | (if g.hasMultipleChars then FLAG_HAS_MULTIPLE_CHARS else 0)
    | (if g.isTerminal then FLAG_IS_TERMINAL else 0)
    | (if g.hasShortcutTargets then FLAG_HAS_SHORTCUT_TARGETS else 0)
    | (if g.hasBigrams then FLAG_HAS_BIGRAMS else 0)
  }

  /** The group masks do not overlap, and together they leave only the two
      low bits undeclared. */
  lemma GroupMasksPartition()
    ensures MASK_GROUP_ADDRESS_TYPE & FLAG_HAS_MULTIPLE_CHARS == 0
    ensures MASK_GROUP_ADDRESS_TYPE & FLAG_IS_TERMINAL == 0
    ensures MASK_GROUP_ADDRESS_TYPE & FLAG_HAS_SHORTCUT_TARGETS == 0
    ensures MASK_GROUP_ADDRESS_TYPE & FLAG_HAS_BIGRAMS == 0
    ensures FLAG_HAS_MULTIPLE_CHARS & FLAG_IS_TERMINAL == 0
    ensures FLAG_HAS_MULTIPLE_CHARS & FLAG_HAS_SHORTCUT_TARGETS == 0
    ensures FLAG_HAS_MULTIPLE_CHARS & FLAG_HAS_BIGRAMS == 0
    ensures FLAG_IS_TERMINAL & FLAG_HAS_SHORTCUT_TARGETS == 0
    ensures FLAG_IS_TERMINAL & FLAG_HAS_BIGRAMS == 0
    ensures FLAG_HAS_SHORTCUT_TARGETS & FLAG_HAS_BIGRAMS == 0
    ensures (MASK_GROUP_ADDRESS_TYPE | FLAG_HAS_MULTIPLE_CHARS | FLAG_IS_TERMINAL
             | FLAG_HAS_SHORTCUT_TARGETS | FLAG_HAS_BIGRAMS) == 0xFC
  {
  }

  /** Re-encoding a decoded group flags byte gives back every declared bit. */
  lemma GroupFlagsRoundTrip(flags: bv8)
    ensures EncodeGroupFlags(DecodeGroupFlags(flags)) == flags & 0xFC
  {
  }

  // ------------------------------------------------------------------
  // Attribute flags
  // ------------------------------------------------------------------

  type AttributeFrequency = f: int | 0 <= f <= 15

  datatype AttributeFlags = AttributeFlags(
    hasNext: bool,
    offsetNegative: bool,
    offsetAddress: AddressType,
    frequency: AttributeFrequency)

  /** The attribute address bits that stand for an address type; the pattern
      0x00 has no declared name and stands here for an offset of no bytes. */
  function AttributeAddressFlag(t: AddressType): (bits: bv8)
    ensures bits & MASK_ATTRIBUTE_ADDRESS_TYPE == bits
  {
    match t
    case NoAddress => 0x00
    case OneByte => FLAG_ATTRIBUTE_ADDRESS_TYPE_ONEBYTE
    case TwoBytes => FLAG_ATTRIBUTE_ADDRESS_TYPE_TWOBYTES
    case ThreeBytes => FLAG_ATTRIBUTE_ADDRESS_TYPE_THREEBYTES
  }

  function DecodeAttributeAddressType(flags: bv8): (t: AddressType)
    ensures AttributeAddressFlag(t) == flags & MASK_ATTRIBUTE_ADDRESS_TYPE
  {
    var bits := flags & MASK_ATTRIBUTE_ADDRESS_TYPE;
    if bits == FLAG_ATTRIBUTE_ADDRESS_TYPE_ONEBYTE then OneByte
    else if bits == FLAG_ATTRIBUTE_ADDRESS_TYPE_TWOBYTES then TwoBytes
    else if bits == FLAG_ATTRIBUTE_ADDRESS_TYPE_THREEBYTES then ThreeBytes
    else NoAddress
  }

  function DecodeAttributeFlags(flags: bv8): (a: AttributeFlags)
    ensures a.hasNext == (flags & FLAG_ATTRIBUTE_HAS_NEXT != 0)
    ensures a.offsetNegative == (flags & FLAG_ATTRIBUTE_OFFSET_NEGATIVE != 0)
    ensures AddressBytes(a.offsetAddress) == ((flags & MASK_ATTRIBUTE_ADDRESS_TYPE) >> 4) as int
    ensures a.frequency == (flags & MASK_ATTRIBUTE_FREQUENCY) as int
  {
    AttributeFlags(
      flags & FLAG_ATTRIBUTE_HAS_NEXT != 0,
      flags & FLAG_ATTRIBUTE_OFFSET_NEGATIVE != 0,
      DecodeAttributeAddressType(flags),
      (flags & MASK_ATTRIBUTE_FREQUENCY) as int)
  }

  function EncodeAttributeFlags(a: AttributeFlags): (flags: bv8)
    ensures DecodeAttributeFlags(flags) == a
  {
    (if a.hasNext then FLAG_ATTRIBUTE_HAS_NEXT else 0)
    | (if a.offsetNegative then FLAG_ATTRIBUTE_OFFSET_NEGATIVE else 0)
    | AttributeAddressFlag(a.offsetAddress)
    | (a.frequency as bv8)
  }

  /** The four attribute fields cover the whole byte, so decoding loses
      nothing: decode then encode is the identity on all 256 values. */
  lemma AttributeFlagsRoundTrip(flags: bv8)
    ensures EncodeAttributeFlags(DecodeAttributeFlags(flags)) == flags
  {
  }
  // ------------------------------------------------------------------
  // Attribute entries and lists
  // ------------------------------------------------------------------

  /** One decoded bigram or shortcut entry: its flags and its signed offset
      to the target group. */
  datatype Attribute = Attribute(flags: AttributeFlags, offset: int)

  /** The unsigned value of a run of bytes, most significant byte first. */
  function ReadMagnitude(bytes: seq<bv8>): (m: nat)
    ensures m < Pow256(|bytes|)
  {
    if bytes == [] then 0
    else ReadMagnitude(bytes[..|bytes| - 1]) * 256 + bytes[|bytes| - 1] as int
  }

  /** The magnitude `m` written on `width` bytes, most significant first. */
  function WriteMagnitude(m: nat, width: nat): (bytes: seq<bv8>)
    requires m < Pow256(width)
    ensures |bytes| == width
  {
    if width == 0 then [] else WriteMagnitude(m / 256, width - 1) + [(m % 256) as bv8]
  }

  lemma {:induction false} MagnitudeRoundTrip(m: nat, width: nat)
    requires m < Pow256(width)
    ensures ReadMagnitude(WriteMagnitude(m, width)) == m
  {
    if width > 0 {
      var bytes := WriteMagnitude(m, width);
      assert bytes[..width - 1] == WriteMagnitude(m / 256, width - 1);
      MagnitudeRoundTrip(m / 256, width - 1);
      ByteValue(m % 256);
      assert ReadMagnitude(bytes) == (m / 256) * 256 + m % 256;
    }
  }

  /** The offset an attribute stores after its flags byte: the magnitude on
      the announced number of bytes, negated when the sign flag is set. None
      when the bytes run out. */
  function DecodeAttributeOffset(flags: AttributeFlags, bytes: seq<bv8>): (r: Option<int>)
    ensures r.Some? <==> AddressBytes(flags.offsetAddress) <= |bytes|
    ensures r.Some? ==>
      var m: int := ReadMagnitude(bytes[..AddressBytes(flags.offsetAddress)]);
      r.value == (if flags.offsetNegative then -m else m)
  {
    var width := AddressBytes(flags.offsetAddress);
    if |bytes| < width then None
    else
      var m: int := ReadMagnitude(bytes[..width]);
      Some(if flags.offsetNegative then -m else m)
  }

  /** Decodes the entry at the head of `bytes`, giving the entry and the
      number of bytes it took. */
  function DecodeAttribute(bytes: seq<bv8>): (r: Option<(Attribute, nat)>)
    ensures r.Some? ==> 1 <= r.value.1 <= |bytes|
    ensures r.Some? ==> r.value.0.flags == DecodeAttributeFlags(bytes[0])
    ensures r.Some? ==> r.value.1 == 1 + AddressBytes(r.value.0.flags.offsetAddress)
    ensures r.Some? ==> var bound: int := Pow256(r.value.1 - 1); -bound < r.value.0.offset < bound
  {
    if bytes == [] then None
    else
      var flags := DecodeAttributeFlags(bytes[0]);
      match DecodeAttributeOffset(flags, bytes[1..])
      case None => None
      case Some(offset) => Some((Attribute(flags, offset), 1 + AddressBytes(flags.offsetAddress)))
  }

  /** Decodes an attribute list: entries follow each other until the first one
      whose has-next flag is clear, which is the last. None when the bytes run
      out before that entry. */
  function DecodeAttributeList(bytes: seq<bv8>): (r: Option<seq<Attribute>>)
    decreases |bytes|
    ensures r.Some? ==> |r.value| >= 1
    ensures r.Some? ==> !r.value[|r.value| - 1].flags.hasNext
    ensures r.Some? ==> forall i :: 0 <= i < |r.value| - 1 ==> r.value[i].flags.hasNext
  {
    match DecodeAttribute(bytes)
    case None => None
    case Some((a, size)) =>
      if !a.flags.hasNext then Some([a])
      else
        match DecodeAttributeList(bytes[size..])
        case None => None
        case Some(rest) => Some([a] + rest)
  }

  /** An entry the encoder can write: the offset fits the announced width and
      its sign agrees with the sign flag. */
  predicate EncodableAttribute(a: Attribute)
  {
    var m := if a.offset < 0 then -a.offset else a.offset;
    && m < Pow256(AddressBytes(a.flags.offsetAddress))
    && (a.offset < 0 ==> a.flags.offsetNegative)
    && (a.offset > 0 ==> !a.flags.offsetNegative)
  }

  /** A list the encoder can write: non-empty, every entry encodable, and the
      has-next flag set on every entry but the last. */
  predicate EncodableAttributeList(list: seq<Attribute>)
  {
    && |list| >= 1
    && (forall i :: 0 <= i < |list| ==> EncodableAttribute(list[i]))
    && (forall i :: 0 <= i < |list| - 1 ==> list[i].flags.hasNext)
    && !list[|list| - 1].flags.hasNext
  }

  function EncodeAttribute(a: Attribute): (bytes: seq<bv8>)
    requires EncodableAttribute(a)
    ensures |bytes| == 1 + AddressBytes(a.flags.offsetAddress)
  {
    var m := if a.offset < 0 then -a.offset else a.offset;
    [EncodeAttributeFlags(a.flags)] + WriteMagnitude(m, AddressBytes(a.flags.offsetAddress))
  }

  function EncodeAttributeList(list: seq<Attribute>): (bytes: seq<bv8>)
    requires forall i :: 0 <= i < |list| ==> EncodableAttribute(list[i])
  {
    if list == [] then [] else EncodeAttribute(list[0]) + EncodeAttributeList(list[1..])
  }

  /** A value below 256 survives the trip through a byte. */
  lemma ByteValue(v: int)
    requires 0 <= v < 256
    ensures (v as bv8) as int == v
  {
    assert v % 256 == v;
  }

  /** The offset bytes of an encodable entry decode to its offset whatever
      bytes follow them. */
  lemma AttributeOffsetRoundTrip(a: Attribute, rest: seq<bv8>)
    requires EncodableAttribute(a)
    ensures var m := if a.offset < 0 then -a.offset else a.offset;
      DecodeAttributeOffset(a.flags, WriteMagnitude(m, AddressBytes(a.flags.offsetAddress)) + rest)
        == Some(a.offset)
  {
    var width := AddressBytes(a.flags.offsetAddress);
    var m := if a.offset < 0 then -a.offset else a.offset;
    var bytes := WriteMagnitude(m, width) + rest;
    assert bytes[..width] == WriteMagnitude(m, width);
    MagnitudeRoundTrip(m, width);
  }

  /** An encoded entry decodes to itself whatever bytes follow it. */
  lemma AttributeRoundTrip(a: Attribute, rest: seq<bv8>)
    requires EncodableAttribute(a)
    ensures DecodeAttribute(EncodeAttribute(a) + rest) == Some((a, |EncodeAttribute(a)|))
  {
    var width := AddressBytes(a.flags.offsetAddress);
    var m := if a.offset < 0 then -a.offset else a.offset;
    var bytes := EncodeAttribute(a) + rest;
    assert bytes[0] == EncodeAttributeFlags(a.flags);
    assert bytes[1..] == WriteMagnitude(m, width) + rest;
    AttributeOffsetRoundTrip(a, rest);
  }

  /** Dropping the first entry of an encodable list of two or more entries
      leaves an encodable list. */
  lemma EncodableTail(list: seq<Attribute>)
    requires EncodableAttributeList(list) && |list| > 1
    ensures EncodableAttributeList(list[1..])
  {
    assert forall i :: 0 <= i < |list| - 1 ==> list[1..][i] == list[i + 1];
  }

  /** An encoded list decodes to itself whatever bytes follow it. */
  lemma {:induction false} AttributeListRoundTrip(list: seq<Attribute>, rest: seq<bv8>)
    requires EncodableAttributeList(list)
    ensures DecodeAttributeList(EncodeAttributeList(list) + rest) == Some(list)
  {
    var head := EncodeAttribute(list[0]);
    var tail := EncodeAttributeList(list[1..]);
    var bytes := EncodeAttributeList(list) + rest;
    assert bytes == head + (tail + rest);
    AttributeRoundTrip(list[0], tail + rest);
    if list[0].flags.hasNext {
      assert |list| > 1;
      assert bytes[|head|..] == tail + rest;
      EncodableTail(list);
      AttributeListRoundTrip(list[1..], rest);
      assert [list[0]] + list[1..] == list;
    } else {
      assert |list| == 1;
      assert [list[0]] == list;
    }
  }

  /** The two-word split of the correction search gets a strictly smaller
      error budget than a single word, and both budgets are positive. */
  lemma TwoWordBudgetIsStricter()
    ensures 0 < MAX_ERRORS_FOR_TWO_WORDS < DEFAULT_MAX_ERRORS
  {
  }
}
