// The packed word of a SymInt (c10/core/SymInt.h): small integers inline, node
// addresses tagged into the range of large negative integers.
module SymIntWord {

  type Word = bv64

  const MASK: Word := (1 << 63) | (1 << 62) | (1 << 61)
  const IS_SYM: Word := (1 << 63) | (1 << 61)
  const SIGN_BIT_MASK: Word := 1 << 61
  const MAX_UNREPRESENTABLE_INT: Word := 0xFFFF_FFFF_FFFF_FFFF & !(1 << 62)
  const MIN_INT: Word := 1 << 63
  const ADDRESS_LIMIT: Word := 1 << 61

  // a < b as two's complement integers.
  predicate SignedLess(a: Word, b: Word) {
    a ^ MIN_INT < b ^ MIN_INT
  }

  // check_range
  predicate CheckRange(i: Word) {
    SignedLess(MAX_UNREPRESENTABLE_INT, i)
  }

  predicate IsHeapAllocated(data: Word) {
    !CheckRange(data)
  }

  // SymInt(SymNode)
  function Tag(ptr: Word): (word: Word) {
    (ptr & !MASK) | IS_SYM
  }

  // toSymNodeImplUnowned
  function Untag(data: Word): (word: Word) {
    ((data & !MASK) ^ SIGN_BIT_MASK) - SIGN_BIT_MASK
  }

  // The two classes are told apart by the top two bits: 10 for a node, anything else for an integer.
  lemma ClassesByTopBits(data: Word)
    ensures IsHeapAllocated(data) <==> data >> 62 == 2
  {
  }

  lemma TaggedIsHeapAllocated(ptr: Word)
    ensures IsHeapAllocated(Tag(ptr))
  {
  }

  // Exactly the addresses below 2^61 survive: the sign extension never restores a higher one.
  lemma RoundTripExactly(ptr: Word)
    ensures Untag(Tag(ptr)) == ptr <==> ptr < ADDRESS_LIMIT
  {
  }

  // min_representable_int and everything above it is stored inline; that is all of -2^62 .. 2^63 - 1.
  lemma InlineRange(i: Word)
    ensures CheckRange(i) <==> !SignedLess(i, MAX_UNREPRESENTABLE_INT + 1)
    ensures MAX_UNREPRESENTABLE_INT + 1 == 0 - (1 << 62)
  {
  }

  // A 64-bit integer in two's complement, and the address of a node.
  datatype Int64 = Int64(bits: Word)
  datatype Address = Address(bits: Word)

  // What a word stands for.
  datatype Content = Integer(i: Int64) | NodeAt(address: Address)

  predicate FitsInline(i: Int64) {
    CheckRange(i.bits)
  }

  // What can be packed: integers from min_representable_int up, addresses below 2^61.
  predicate Representable(c: Content) {
    match c
    case Integer(i) => FitsInline(i)
    case NodeAt(a) => a.bits < ADDRESS_LIMIT
  }

  function Encode(c: Content): (word: Word) {
    match c
    case Integer(i) => i.bits
    case NodeAt(a) => Tag(a.bits)
  }

  function Decode(data: Word): (content: Content) {
    if IsHeapAllocated(data) then NodeAt(Address(Untag(data))) else Integer(Int64(data))
  }

  // Packing loses nothing exactly of what is representable; so different contents have different words.
  lemma DecodeEncode(c: Content)
    ensures Decode(Encode(c)) == c <==> Representable(c)
  {
    match c
    case Integer(i) =>
    case NodeAt(a) =>
      TaggedIsHeapAllocated(a.bits);
      RoundTripExactly(a.bits);
  }

  // The words in use are exactly those whose bit 61 is set when the top bits are 10.
  lemma EncodeDecode(data: Word)
    ensures Encode(Decode(data)) == data <==> (IsHeapAllocated(data) ==> data & SIGN_BIT_MASK != 0)
    ensures Representable(Decode(data))
  {
  }
}
