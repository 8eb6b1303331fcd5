// One goroutine at a time: the loops of IDGenerator over its words.
module IdGenerator {
  import opened Common
  import opened StreamBits

  class IDGenerator {
    const numStreams: nat
    var inuseStreams: int
    var offset: nat
    const words: array<bv64>

    /** The counter leaves out one id, meant to be the reserved one. */
    ghost predicate Counted()
      reads this, words
    {
      && words.Length > 0
      && numStreams == words.Length * BUCKET_BITS
      && offset < words.Length
      && inuseStreams == |InUse(words[..])| - 1
    }

    /** As long as nobody clears it, the reserved id is in use. */
    ghost predicate Valid()
      reads this, words
    {
      Counted() && 0 in InUse(words[..])
    }

    constructor (protocol: int)
      ensures Valid() && fresh(words)
      ensures numStreams == if protocol > 2 then 32768 else 128
      ensures InUse(words[..]) == {0} && inuseStreams == 0
    {
      var maxStreams := if protocol > 2 then 32768 else 128;
      var buckets := maxStreams / BUCKET_BITS;
      numStreams := maxStreams;
      inuseStreams := 0;
      offset := buckets - 1;
      words := new bv64[buckets](i => if i == 0 then 0x8000_0000_0000_0000 else 0);
      new;
      assert words[..] == FreshWords(buckets);
      FreshInUse(buckets);
    }

    /** Finds a free id whenever there is one, marks it and counts it. */
    method GetStream() returns (stream: nat, ok: bool)
      requires Valid()
      modifies this, words
      ensures Valid()
      ensures ok <==> exists id: nat :: id < numStreams && id !in old(InUse(words[..]))
      ensures ok ==> 1 <= stream < numStreams && stream !in old(InUse(words[..]))
                     && InUse(words[..]) == old(InUse(words[..])) + {stream}
      ensures !ok ==> stream == 0 && words[..] == old(words[..])
      ensures inuseStreams == old(inuseStreams) + if ok then 1 else 0
    {
      hide InUse, MaskFree, WordFull, StreamOffset, BitSet;
      offset := (offset + 1) % words.Length;
      ghost var before := words[..];
      var i := 0;
      while i < words.Length
        invariant 0 <= i <= words.Length
        invariant words[..] == before && inuseStreams == old(inuseStreams) && offset < words.Length
        invariant forall p: nat :: p < |before| && Distance(offset, p, |before|) < i ==> WordFull(before, p)
      {
        var pos := (i + offset) % words.Length;
        Wraps(i, offset, words.Length);
        var bucket := words[pos];
        if bucket != ALL_ONES {
          var j := FirstFree(bucket);
          if j < BUCKET_BITS {
            stream := TakeSlot(pos, j);
            return stream, true;
          }
        }
        BitsFull(before, pos);
        i := i + 1;
      }
      AllFull(before);
      stream, ok := 0, false;
    }

    /** The successful CAS: the slot's bit is set and the id counted. */
    method TakeSlot(pos: nat, j: Slot) returns (stream: nat)
      requires Valid() && pos < words.Length && MaskFree(words[pos], StreamOffset(j))
      modifies this`inuseStreams, words
      ensures Valid() && 1 <= stream < numStreams && stream !in old(InUse(words[..]))
      ensures InUse(words[..]) == old(InUse(words[..])) + {stream} && inuseStreams == old(inuseStreams) + 1
    {
      hide InUse, MaskFree;
      ghost var before := words[..];
      FreeSlot(before, pos, j);
      words[pos] := words[pos] | Mask(StreamOffset(j));
      inuseStreams := inuseStreams + 1;
      stream := StreamFromBucket(pos, j);
      assert words[..] == SetStream(before, stream);
      SetAdds(before, stream);
    }

    /** The inner loop over the slots of one loaded word. */
    static method FirstFree(bucket: bv64) returns (j: nat)
      ensures j <= BUCKET_BITS
      ensures j < BUCKET_BITS ==> MaskFree(bucket, StreamOffset(j))
      ensures forall k: Slot :: k < j ==> BitSet(bucket, StreamOffset(k))
    {
      j := 0;
      while j < BUCKET_BITS
        invariant 0 <= j <= BUCKET_BITS
        invariant forall k: Slot :: k < j ==> BitSet(bucket, StreamOffset(k))
      {
        TestWord(bucket, StreamOffset(j));
        if MaskFree(bucket, StreamOffset(j)) {
          return;
        }
        j := j + 1;
      }
    }

    /** Clears the bit of an id; false when it was clear already. The counter goes below zero, and the
        call panics, exactly when the id was the only one in use: so never while the reserved id is,
        unless it is the one cleared. */
    method Clear(stream: nat) returns (inuse: bool, panics: bool)
      requires Counted() && stream < numStreams
      modifies this, words
      ensures Counted() && (old(Valid()) && stream > 0 ==> Valid())
      ensures inuse <==> stream in old(InUse(words[..]))
      ensures InUse(words[..]) == old(InUse(words[..])) - {stream}
      ensures inuseStreams == old(inuseStreams) - if inuse then 1 else 0
      ensures panics <==> old(InUse(words[..])) == {stream}
    {
      ghost var before := words[..];
      TakenIff(before, stream);
      hide InUse, MaskTaken, Mask, StreamOffset;
      var b := BucketOffset(stream);
      var bucket := words[b];
      if !MaskTaken(bucket, StreamOffset(SlotOf(stream))) {
        return false, false;
      }
      words[b] := bucket & !Mask(StreamOffset(SlotOf(stream)));
      assert words[..] == ClearStream(before, stream);
      ClearRemoves(before, stream);
      inuseStreams := inuseStreams - 1;
      OnlyOne(InUse(before), stream);
      return true, inuseStreams < 0;
    }

    /** How many more ids GetStream can hand out. */
    method Available() returns (n: int)
      requires Valid()
      ensures n == numStreams - |InUse(words[..])|
    {
      n := numStreams - inuseStreams - 1;
    }
  }

  lemma TakenIff(words: seq<bv64>, stream: nat)
    requires stream < Capacity(words)
    ensures MaskTaken(words[BucketOffset(stream)], StreamOffset(SlotOf(stream))) <==> stream in InUse(words)
  {
    TestWord(words[BucketOffset(stream)], StreamOffset(SlotOf(stream)));
  }

  lemma OnlyOne(ids: set<nat>, id: nat)
    requires id in ids
    ensures |ids - {id}| == |ids| - 1 && (|ids| == 1 <==> ids == {id})
  {
    assert |ids - {id}| == 0 ==> ids - {id} == {};
    assert ids == (ids - {id}) + {id};
  }

  ghost predicate WordFull(words: seq<bv64>, pos: nat)
    requires pos < |words|
  {
    forall k: Slot :: StreamFromBucket(pos, k) in InUse(words)
  }

  /** How many words after `start`, going round, `pos` is visited. */
  function Distance(start: nat, pos: nat, n: nat): int
    requires start < n && pos < n
  {
    if pos >= start then pos - start else pos + n - start
  }

  lemma BitsFull(words: seq<bv64>, pos: nat)
    requires pos < |words|
    requires words[pos] == ALL_ONES || forall k: Slot :: BitSet(words[pos], StreamOffset(k))
    ensures WordFull(words, pos)
  {
    forall k: Slot
      ensures StreamFromBucket(pos, k) in InUse(words)
    {
      FullWord(StreamOffset(k));
      TakenSlot(words, pos, k);
    }
  }

  /** Full words leave no id free. */
  lemma AllFull(words: seq<bv64>)
    requires forall p: nat :: p < |words| ==> WordFull(words, p)
    ensures forall id: nat :: id < Capacity(words) ==> id in InUse(words)
  {
    hide InUse;
    forall id: nat | id < Capacity(words)
      ensures id in InUse(words)
    {
      assert WordFull(words, BucketOffset(id));
      assert id == StreamFromBucket(BucketOffset(id), SlotOf(id));
    }
  }
}
