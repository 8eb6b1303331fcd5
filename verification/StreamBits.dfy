// The bit positions of internal/streams: stream ids as bits of 64-bit words.
// Bit 63 of word 0 is stream 0, bit 62 is stream 1, and so on.
module StreamBits {

  const BUCKET_BITS := 64
  const ALL_ONES: bv64 := 0xFFFF_FFFF_FFFF_FFFF

  type Slot = x: int | 0 <= x < BUCKET_BITS

  function StreamFromBucket(bucket: nat, slot: Slot): nat {
    bucket * BUCKET_BITS + slot
  }

  function BucketOffset(stream: nat): nat {
    stream / BUCKET_BITS
  }

  function SlotOf(stream: nat): Slot {
    stream % BUCKET_BITS
  }

  /** How far the bit of a slot is from the low end of its word. */
  function StreamOffset(slot: Slot): bv6 {
    63 - (slot as bv6)
  }

  function Mask(offset: bv6): bv64 {
    (1 as bv64) << offset
  }

  predicate MaskFree(word: bv64, offset: bv6) {
    word & Mask(offset) == 0
  }

  predicate MaskTaken(word: bv64, offset: bv6) {
    word & Mask(offset) == Mask(offset)
  }

  predicate BitSet(word: bv64, offset: bv6) {
    (word >> offset) & 1 == 1
  }

  function Capacity(words: seq<bv64>): nat {
    |words| * BUCKET_BITS
  }

  predicate IsSet(words: seq<bv64>, stream: nat)
    requires stream < Capacity(words)
  {
    BitSet(words[BucketOffset(stream)], StreamOffset(SlotOf(stream)))
  }

  /** The abstract value of the bitset: the ids whose bit is on. */
  function InUse(words: seq<bv64>): set<nat> {
    set s | 0 <= s < Capacity(words) && IsSet(words, s)
  }

  function SetStream(words: seq<bv64>, stream: nat): (r: seq<bv64>)
    requires stream < Capacity(words)
  {
    var b := BucketOffset(stream);
    words[b := words[b] | Mask(StreamOffset(SlotOf(stream)))]
  }

  function ClearStream(words: seq<bv64>, stream: nat): (r: seq<bv64>)
    requires stream < Capacity(words)
  {
    var b := BucketOffset(stream);
    words[b := words[b] & !Mask(StreamOffset(SlotOf(stream)))]
  }

  lemma SlotRoundTrip(a: Slot)
    ensures (a as bv6) as int == a
  {
  }

  lemma OffsetInjective(a: Slot, b: Slot)
    requires StreamOffset(a) == StreamOffset(b)
    ensures a == b
  {
    SlotRoundTrip(a);
    SlotRoundTrip(b);
    assert a as bv6 == b as bv6;
  }

  lemma SetWord(w: bv64, s: bv6, t: bv6)
    ensures BitSet(w | Mask(s), t) <==> s == t || BitSet(w, t)
  {
  }

  lemma ClearWord(w: bv64, s: bv6, t: bv6)
    ensures BitSet(w & !Mask(s), t) <==> s != t && BitSet(w, t)
  {
  }

  /** The two masked tests of the code both ask whether the bit is on. */
  lemma TestWord(w: bv64, s: bv6)
    ensures MaskFree(w, s) <==> !BitSet(w, s)
    ensures MaskTaken(w, s) <==> BitSet(w, s)
  {
  }

  lemma FullWord(s: bv6)
    ensures BitSet(ALL_ONES, s)
  {
  }

  lemma EmptyWord(s: bv6)
    ensures !BitSet(0, s)
    ensures BitSet(0x8000_0000_0000_0000, s) <==> s == 63
  {
  }

  /** Or-ing a mask into its word adds exactly that id. */
  lemma SetAdds(words: seq<bv64>, stream: nat)
    requires stream < Capacity(words)
    ensures InUse(SetStream(words, stream)) == InUse(words) + {stream}
  {
    hide BitSet, Mask, StreamOffset;
    var after := SetStream(words, stream);
    forall k: nat | k < Capacity(words)
      ensures IsSet(after, k) <==> k == stream || IsSet(words, k)
    {
      if BucketOffset(k) == BucketOffset(stream) {
        SetWord(words[BucketOffset(k)], StreamOffset(SlotOf(stream)), StreamOffset(SlotOf(k)));
        if StreamOffset(SlotOf(stream)) == StreamOffset(SlotOf(k)) {
          OffsetInjective(SlotOf(stream), SlotOf(k));
        }
      }
    }
  }

  /** And-ing the complement of a mask into its word removes exactly that id. */
  lemma ClearRemoves(words: seq<bv64>, stream: nat)
    requires stream < Capacity(words)
    ensures InUse(ClearStream(words, stream)) == InUse(words) - {stream}
  {
    hide BitSet, Mask, StreamOffset;
    var after := ClearStream(words, stream);
    forall k: nat | k < Capacity(words)
      ensures IsSet(after, k) <==> k != stream && IsSet(words, k)
    {
      if BucketOffset(k) == BucketOffset(stream) {
        ClearWord(words[BucketOffset(k)], StreamOffset(SlotOf(stream)), StreamOffset(SlotOf(k)));
        if StreamOffset(SlotOf(stream)) == StreamOffset(SlotOf(k)) {
          OffsetInjective(SlotOf(stream), SlotOf(k));
        }
      }
    }
  }

  /** The words `New` starts from: everything free but the reserved stream 0. */
  function FreshWords(buckets: nat): (r: seq<bv64>)
    requires buckets > 0
  {
    seq(buckets, i => if i == 0 then 0x8000_0000_0000_0000 else 0)
  }

  lemma FreshInUse(buckets: nat)
    requires buckets > 0
    ensures InUse(FreshWords(buckets)) == {0}
  {
    var words := FreshWords(buckets);
    forall k: nat | k < Capacity(words)
      ensures IsSet(words, k) <==> k == 0
    {
      EmptyWord(StreamOffset(SlotOf(k)));
      SlotRoundTrip(SlotOf(k));
      if BucketOffset(k) == 0 && StreamOffset(SlotOf(k)) == 63 {
        assert StreamOffset(0) == 63;
        OffsetInjective(SlotOf(k), 0);
      }
    }
    assert |words| == buckets && IsSet(words, 0);
  }

  /** The free mask of a word is a free id. */
  lemma FreeSlot(words: seq<bv64>, pos: nat, j: Slot)
    requires pos < |words| && MaskFree(words[pos], StreamOffset(j))
    ensures StreamFromBucket(pos, j) < Capacity(words) && StreamFromBucket(pos, j) !in InUse(words)
  {
    TestWord(words[pos], StreamOffset(j));
    var id := StreamFromBucket(pos, j);
    assert BucketOffset(id) == pos && SlotOf(id) == j;
  }

  lemma TakenSlot(words: seq<bv64>, pos: nat, j: Slot)
    requires pos < |words| && BitSet(words[pos], StreamOffset(j))
    ensures StreamFromBucket(pos, j) in InUse(words)
  {
    var id := StreamFromBucket(pos, j);
    assert BucketOffset(id) == pos && SlotOf(id) == j && id < Capacity(words);
    assert IsSet(words, id);
  }
}
