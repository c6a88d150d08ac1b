/** Pushing bytes: the stack's words are written limb by limb into its buffer. */
module StackPush {
  import opened Prelude
  import opened Arithmetic

  const LIMB: int := 0x1_0000_0000_0000_0000

  /** Bytes read as a big-endian number. */
  function BigEndian(bytes: Bytes): nat {
    if bytes == [] then 0 else BigEndian(bytes[..|bytes| - 1]) * 256 + bytes[|bytes| - 1] as nat
  }

  /** The value of four limbs, least significant first. */
  function WordOf(limbs: seq<nat>): nat
    requires |limbs| == 4
  {
    limbs[0] + LIMB * (limbs[1] + LIMB * (limbs[2] + LIMB * limbs[3]))
  }

  /** The words held in a buffer of limbs. */
  function Words(limbs: seq<nat>): seq<nat>
    decreases |limbs|
  {
    if |limbs| < 4 then [] else [WordOf(limbs[..4])] + Words(limbs[4..])
  }

  /** The slice as words: each 32 bytes, and what is left, read big-endian. */
  function Chunks(slice: Bytes): seq<nat>
    decreases |slice|
  {
    if slice == [] then []
    else if |slice| <= 32 then [BigEndian(slice)]
    else [BigEndian(slice[..32])] + Chunks(slice[32..])
  }

  // ---- Limbs of one chunk ----

  /** Where the limbs from number l on begin, counted from the end of the chunk. */
  function Cut(c: Bytes, l: nat): nat {
    if 8 * l <= |c| then |c| - 8 * l else 0
  }

  /** Limb number l of a chunk. */
  function LimbAt(c: Bytes, l: nat): nat {
    BigEndian(c[Cut(c, l + 1)..Cut(c, l)])
  }

  lemma {:induction false} BigEndianConcat(a: Bytes, b: Bytes)
    ensures BigEndian(a + b) == BigEndian(a) * Pow256(|b|) + BigEndian(b)
    decreases |b|
  {
    if b == [] {
      assert a + b == a;
    } else {
      var n := |b| - 1;
      assert (a + b)[..|a + b| - 1] == a + b[..n];
      BigEndianConcat(a, b[..n]);
      assert BigEndian(a) * Pow256(n) * 256 == BigEndian(a) * Pow256(|b|);
    }
  }

  lemma Pow256Eight()
    ensures Pow256(8) == LIMB
  {
    assert Pow256(4) == 0x1_0000_0000;
    assert Pow256(8) == 256 * (256 * (256 * (256 * Pow256(4))));
  }

  /** What lies before limb l + 1 and limb l itself make up what lies before limb l. */
  lemma LimbSplit(c: Bytes, l: nat)
    ensures BigEndian(c[..Cut(c, l)]) == BigEndian(c[..Cut(c, l + 1)]) * LIMB + LimbAt(c, l)
  {
    var hi, lo := c[..Cut(c, l + 1)], c[Cut(c, l + 1)..Cut(c, l)];
    assert hi + lo == c[..Cut(c, l)];
    BigEndianConcat(hi, lo);
    Pow256Eight();
  }

  lemma Horner(v: nat, h1: nat, h2: nat, h3: nat, limbs: seq<nat>)
    requires |limbs| == 4
    requires v == h1 * LIMB + limbs[0] && h1 == h2 * LIMB + limbs[1] && h2 == h3 * LIMB + limbs[2] && h3 == limbs[3]
    ensures WordOf(limbs) == v
  {
  }

  function LimbsOf(c: Bytes): seq<nat> {
    seq(4, l requires 0 <= l < 4 => LimbAt(c, l))
  }

  /** The four limbs of a chunk of at most 32 bytes make up its big-endian value. */
  lemma LimbsMakeWord(c: Bytes)
    requires |c| <= 32
    ensures WordOf(LimbsOf(c)) == BigEndian(c)
  {
    LimbSplit(c, 0);
    LimbSplit(c, 1);
    LimbSplit(c, 2);
    LimbSplit(c, 3);
    assert c[..Cut(c, 0)] == c && c[..Cut(c, 4)] == [];
    Horner(BigEndian(c), BigEndian(c[..Cut(c, 1)]), BigEndian(c[..Cut(c, 2)]), BigEndian(c[..Cut(c, 3)]), LimbsOf(c));
  }

  // ---- Words of a growing buffer ----

  lemma {:induction false} WordsAppend(limbs: seq<nat>, word: seq<nat>)
    requires |limbs| % 4 == 0 && |word| == 4
    ensures Words(limbs + word) == Words(limbs) + [WordOf(word)]
    decreases |limbs|
  {
    if limbs == [] {
      assert limbs + word == word;
      assert word[..4] == word && word[4..] == [];
    } else {
      assert (limbs + word)[..4] == limbs[..4] && (limbs + word)[4..] == limbs[4..] + word;
      WordsAppend(limbs[4..], word);
    }
  }

  lemma {:induction false} ChunksAppend(slice: Bytes, rest: Bytes)
    requires |slice| % 32 == 0 && 0 < |rest| <= 32
    ensures Chunks(slice + rest) == Chunks(slice) + [BigEndian(rest)]
    decreases |slice|
  {
    if slice == [] {
      assert slice + rest == rest;
    } else if |slice| == 32 {
      assert (slice + rest)[..32] == slice && (slice + rest)[32..] == rest;
      assert Chunks(slice + rest) == [BigEndian(slice)] + Chunks(rest);
    } else {
      assert (slice + rest)[..32] == slice[..32] && (slice + rest)[32..] == slice[32..] + rest;
      ChunksAppend(slice[32..], rest);
    }
  }

  /** How many bytes the first w words cover. */
  function Covered(slice: Bytes, w: nat): nat {
    if 32 * w <= |slice| then 32 * w else |slice|
  }

  lemma NextChunk(slice: Bytes, w: nat)
    requires 32 * w < |slice|
    ensures Chunks(slice[..Covered(slice, w + 1)]) == Chunks(slice[..Covered(slice, w)]) + [BigEndian(slice[32 * w..Covered(slice, w + 1)])]
  {
    var c := slice[32 * w..Covered(slice, w + 1)];
    assert slice[..Covered(slice, w + 1)] == slice[..Covered(slice, w)] + c;
    ChunksAppend(slice[..Covered(slice, w)], c);
  }

  class Stack {
    /** Room for all words, four limbs each; what lies behind the length is garbage. */
    const buffer: array<nat>
    var len: nat

    ghost predicate Valid()
      reads this
    {
      buffer.Length == 4 * STACK_LIMIT && len <= STACK_LIMIT
    }

    ghost function Contents(): seq<nat>
      requires Valid()
      reads this, buffer
    {
      Words(buffer[..4 * len])
    }

    constructor ()
      ensures Valid() && fresh(buffer) && Contents() == []
    {
      buffer := new nat[4 * STACK_LIMIT];
      len := 0;
    }

    /** Writes the four limbs of a chunk at word `at`, the least significant first, and zeros where
        the chunk has no more bytes. */
    method WriteWord(at: nat, c: Bytes)
      requires buffer.Length == 4 * STACK_LIMIT && at < STACK_LIMIT && |c| <= 32
      modifies buffer
      ensures buffer[..4 * at] == old(buffer[..4 * at])
      ensures buffer[4 * at..4 * at + 4] == LimbsOf(c)
    {
      for l := 0 to 4
        invariant buffer[..4 * at] == old(buffer[..4 * at])
        invariant forall k :: 0 <= k < l ==> buffer[4 * at + k] == LimbAt(c, k)
      {
        if 8 * (l + 1) <= |c| {
          buffer[4 * at + l] := BigEndian(c[|c| - 8 * (l + 1)..|c| - 8 * l]);
        } else if 8 * l < |c| {
          buffer[4 * at + l] := BigEndian(c[..|c| - 8 * l]);
        } else {
          buffer[4 * at + l] := 0;
        }
      }
    }

    /** Writes the word of a chunk behind the first `at` words. */
    method AppendChunk(at: nat, c: Bytes)
      requires buffer.Length == 4 * STACK_LIMIT && at < STACK_LIMIT && |c| <= 32
      modifies buffer
      ensures Words(buffer[..4 * (at + 1)]) == old(Words(buffer[..4 * at])) + [BigEndian(c)]
    {
      ghost var limbs := buffer[..4 * at];
      WriteWord(at, c);
      assert buffer[..4 * (at + 1)] == limbs + LimbsOf(c);
      WordsAppend(limbs, LimbsOf(c));
      LimbsMakeWord(c);
    }

    /** Appends the words of a byte slice; earlier words stay. Fails if they do not fit. */
    method PushSlice(slice: Bytes) returns (ok: bool)
      requires Valid()
      modifies this`len, buffer
      ensures Valid()
      ensures ok <==> old(len) + (|slice| + 31) / 32 <= STACK_LIMIT
      ensures Contents() == if ok then old(Contents()) + Chunks(slice) else old(Contents())
    {
      if slice == [] { return true; }
      var words := (|slice| + 31) / 32;
      if len + words > STACK_LIMIT { return false; }
      ghost var before := Contents();
      PushWords(before, slice, words);
      assert slice[..|slice|] == slice;
      len := len + words;
      ok := true;
    }

    /** The loop over the words of the slice. */
    method PushWords(ghost before: seq<nat>, slice: Bytes, words: nat)
      requires Valid() && before == Contents() && len + words <= STACK_LIMIT && words == (|slice| + 31) / 32
      modifies buffer
      ensures Pushed(before, slice, words) && Covered(slice, words) == |slice|
    {
      assert before + Chunks(slice[..0]) == before;
      for w := 0 to words
        invariant Pushed(before, slice, w)
      {
        PushChunk(before, slice, w);
      }
    }

    /** The first w words of the slice stand behind the words that were there before. */
    ghost predicate Pushed(before: seq<nat>, slice: Bytes, w: nat)
      reads this, buffer
    {
      && buffer.Length == 4 * STACK_LIMIT && len + w <= STACK_LIMIT
      && Words(buffer[..4 * (len + w)]) == before + Chunks(slice[..Covered(slice, w)])
    }

    method PushChunk(ghost before: seq<nat>, slice: Bytes, w: nat)
      requires Pushed(before, slice, w) && 32 * w < |slice| && len + w < STACK_LIMIT
      modifies buffer
      ensures Pushed(before, slice, w + 1)
    {
      AppendChunk(len + w, slice[32 * w..Covered(slice, w + 1)]);
      NextChunk(slice, w);
    }
  }

  /** The bytes of a number read big-endian are its digits to base 256, the last byte the lowest. */
  lemma {:induction false} BigEndianDigit(bytes: Bytes, k: nat)
    requires k < |bytes|
    ensures BigEndian(bytes) / Pow256(k) % 256 == bytes[|bytes| - 1 - k]
  {
    var n := |bytes| - 1;
    if k > 0 {
      BigEndianDigit(bytes[..n], k - 1);
      DropDigit(BigEndian(bytes[..n]), bytes[n], Pow256(k - 1));
    }
  }

  lemma DropDigit(high: nat, low: nat, p: nat)
    requires low < 256 && p > 0
    ensures (high * 256 + low) / (256 * p) == high / p
  {
    DivMod(high, p);
    var q, r := high / p, high % p;
    assert high * 256 + low == q * (256 * p) + (r * 256 + low);
    DivUnique(high * 256 + low, 256 * p, q, r * 256 + low);
  }

  /** The k-th word of a slice is its k-th 32 bytes, or what is left of them, read big-endian. */
  lemma {:induction false} ChunkAt(slice: Bytes, k: nat)
    requires 32 * k < |slice|
    ensures |Chunks(slice)| == (|slice| + 31) / 32
    ensures Chunks(slice)[k] == BigEndian(slice[32 * k..Min(32 * k + 32, |slice|)])
    decreases |slice|
  {
    if |slice| > 32 {
      var rest := slice[32..];
      ChunkAt(rest, if k > 0 then k - 1 else 0);
      if k > 0 {
        assert rest[32 * (k - 1)..Min(32 * (k - 1) + 32, |rest|)] == slice[32 * k..Min(32 * k + 32, |slice|)];
      } else {
        assert slice[0..32] == slice[..32];
      }
    } else {
      assert slice[0..|slice|] == slice;
    }
  }
}
