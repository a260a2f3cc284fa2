/** The 64-bit tagged word of the lock-free library: a 48-bit pointer in the low
    bits and a 16-bit tag in the high bits (src/lockfree/tagged_ptr.cc). Words are
    unsigned 64-bit numbers; shifts drop the bits they push out. */
module TaggedPtr {

  const TAGS: nat := 0x1_0000
  const ADDRESSES: nat := 0x1_0000_0000_0000
  const WORDS: nat := 0x1_0000_0000_0000_0000

  function ShiftLeft16(v: nat): nat {
    v * 0x1_0000 % WORDS
  }

  function ShiftRight16(v: nat): nat {
    v / 0x1_0000
  }

  function ShiftLeft48(v: nat): nat {
    v * 0x1_0000_0000_0000 % WORDS
  }

  function ShiftRight48(v: nat): nat {
    v / 0x1_0000_0000_0000
  }

  function BitOr(a: nat, b: nat): nat {
    if a == 0 && b == 0 then 0
    else (if a % 2 == 1 || b % 2 == 1 then 1 else 0) + 2 * BitOr(a / 2, b / 2)
  }

  function FromPair(ptr: nat, tag: nat): nat {
    BitOr(ShiftRight16(ShiftLeft16(ptr)), ShiftLeft48(tag))
  }

  function RawPtr(v: nat): nat {
    ShiftRight16(ShiftLeft16(v))
  }

  function RawTag(v: nat): nat {
    ShiftRight48(v) % TAGS
  }

  function Pow2(k: nat): (p: nat)
    ensures p > 0
  {
    if k == 0 then 1 else 2 * Pow2(k - 1)
  }

  lemma {:induction false} OrWithZero(b: nat)
    ensures BitOr(0, b) == b
  {
    if b > 0 {
      OrWithZero(b / 2);
    }
  }

  /** An `or` of bits below 2^k with bits from 2^k up is their sum. */
  lemma {:induction false} OrOfDisjointBits(a: nat, b: nat, k: nat)
    requires a < Pow2(k)
    ensures BitOr(a, b * Pow2(k)) == a + b * Pow2(k)
  {
    if k == 0 {
      OrWithZero(b);
    } else {
      var high := b * Pow2(k - 1);
      assert b * Pow2(k) == 2 * high;
      OrOfDisjointBits(a / 2, b, k - 1);
    }
  }

  lemma {:induction false} Pow2Sum(m: nat, n: nat)
    ensures Pow2(m + n) == Pow2(m) * Pow2(n)
  {
    if m > 0 {
      Pow2Sum(m - 1, n);
    }
  }

  lemma Pow2Of48()
    ensures Pow2(48) == ADDRESSES
  {
    assert Pow2(6) == 64;
    Pow2Sum(6, 6);
    Pow2Sum(12, 12);
    Pow2Sum(24, 24);
  }

  lemma KeepLow48(ptr: nat)
    requires ptr < WORDS
    ensures ShiftRight16(ShiftLeft16(ptr)) == ptr % ADDRESSES
  {
  }

  lemma FitsWhenUnchanged(ptr: nat)
    ensures ptr % ADDRESSES == ptr <==> ptr < ADDRESSES
  {
  }

  lemma PackedSum(ptr: nat, tag: nat)
    requires ptr < WORDS && tag < TAGS
    ensures FromPair(ptr, tag) == ptr % ADDRESSES + tag * ADDRESSES
  {
    Pow2Of48();
    OrOfDisjointBits(ptr % ADDRESSES, tag, 48);
    KeepLow48(ptr);
    assert ShiftLeft48(tag) == tag * ADDRESSES;
  }

  lemma SplitSum(v: nat, low: nat, tag: nat)
    requires low < ADDRESSES && tag < TAGS && v == low + tag * ADDRESSES
    ensures v < WORDS && RawTag(v) == tag && RawPtr(v) == low
  {
  }

  /** Unpacking what was packed gives the tag back, and the pointer back exactly
      when it fits in 48 bits. */
  lemma PackUnpack(ptr: nat, tag: nat)
    requires ptr < WORDS && tag < TAGS
    ensures FromPair(ptr, tag) < WORDS
    ensures RawTag(FromPair(ptr, tag)) == tag
    ensures RawPtr(FromPair(ptr, tag)) == ptr <==> ptr < ADDRESSES
  {
    PackedSum(ptr, tag);
    SplitSum(FromPair(ptr, tag), ptr % ADDRESSES, tag);
    FitsWhenUnchanged(ptr);
  }

  /** Packing what was unpacked gives the word back. */
  lemma UnpackPack(v: nat)
    requires v < WORDS
    ensures RawPtr(v) < ADDRESSES && RawTag(v) < TAGS
    ensures FromPair(RawPtr(v), RawTag(v)) == v
  {
    SplitWord(v);
    PackedSum(v % ADDRESSES, v / ADDRESSES);
  }

  lemma SplitWord(v: nat)
    requires v < WORDS
    ensures RawPtr(v) == v % ADDRESSES < ADDRESSES && RawTag(v) == v / ADDRESSES < TAGS
    ensures v % ADDRESSES % ADDRESSES + v / ADDRESSES * ADDRESSES == v
  {
  }

  // ---- Words as pairs, and the same operations on the raw word ----

  datatype Word = Word(ptr: nat, tag: nat)

  const NULL: nat := 0

  predicate Fits(w: Word) {
    w.ptr < ADDRESSES && w.tag < TAGS
  }

  function Pack(w: Word): nat {
    FromPair(w.ptr, w.tag)
  }

  /** What a weak compare-and-swap leaves: the cell, the caller's expected value, the verdict. */
  datatype Swap<W> = Swap(cell: W, seen: W, ok: bool)

  function CasWeak<W(==)>(cell: W, expected: W, desired: W, spurious: bool): Swap<W> {
    if cell == expected && !spurious then Swap(desired, expected, true) else Swap(cell, cell, false)
  }

  /** `from_pair(w.raw_ptr(), w.tag() + 1)`, the sum converted back to 16 bits. */
  function Pinned(w: Word): Word {
    Word(w.ptr, (w.tag + 1) % TAGS)
  }

  function Unpinned(w: Word): Word {
    Word(w.ptr, (w.tag + TAGS - 1) % TAGS)
  }

  function Cleared(w: Word): Word {
    Word(w.ptr, 0)
  }

  function RawPinned(v: nat): nat {
    FromPair(RawPtr(v), (RawTag(v) + 1) % TAGS)
  }

  function RawUnpinned(v: nat): nat {
    FromPair(RawPtr(v), (RawTag(v) + TAGS - 1) % TAGS)
  }

  function RawCleared(v: nat): nat {
    FromPair(RawPtr(v), 0)
  }

  lemma PackingIsInjective(w: Word, x: Word)
    requires Fits(w) && Fits(x)
    ensures Pack(w) == Pack(x) <==> w == x
  {
    PackUnpack(w.ptr, w.tag);
    PackUnpack(x.ptr, x.tag);
  }

  /** A compare-and-swap on packed words is the compare-and-swap on the pairs: same
      verdict, and the words it leaves in the cell and in the caller's variable are the
      packed pairs. */
  lemma CasOnRawWords(cell: Word, expected: Word, desired: Word, spurious: bool)
    requires Fits(cell) && Fits(expected) && Fits(desired)
    ensures var pair := CasWeak(cell, expected, desired, spurious);
            CasWeak(Pack(cell), Pack(expected), Pack(desired), spurious)
            == Swap(Pack(pair.cell), Pack(pair.seen), pair.ok)
  {
    PackingIsInjective(cell, expected);
  }

  /** Every word the retry loops compute from a word they read is the packed pair of the
      one computed on pairs, and the tests they make on it agree. */
  lemma RetriesOnRawWords(w: Word, x: Word)
    requires Fits(w) && Fits(x)
    ensures RawPinned(Pack(w)) == Pack(Pinned(w))
    ensures RawUnpinned(Pack(w)) == Pack(Unpinned(w))
    ensures RawCleared(Pack(w)) == Pack(Cleared(w))
    ensures RawPtr(Pack(w)) == RawPtr(Pack(x)) <==> w.ptr == x.ptr
    ensures RawTag(Pack(w)) == 0 <==> w.tag == 0
  {
    PackUnpack(w.ptr, w.tag);
    PackUnpack(x.ptr, x.tag);
  }

  lemma OnlyNullPacksToZero(w: Word)
    requires Fits(w)
    ensures Pack(w) == 0 <==> w == Word(NULL, 0)
  {
    PackedSum(NULL, 0);
    PackingIsInjective(w, Word(NULL, 0));
  }
}
