/** Paying for memory. */
module MemoryGas {
  import opened Arithmetic
  import opened GasConstants
  import opened SharedMemory
  import opened Gas

  const MAX_U64: nat := 0xFFFF_FFFF_FFFF_FFFF
  /** The longest memory whose length is a whole number of words. */
  const LONGEST: nat := 0xFFFF_FFFF_FFFF_FFE0

  /** Arithmetic on 64-bit numbers that saturates. */
  function Sat(x: nat): nat {
    if x <= MAX_U64 then x else MAX_U64
  }

  function NumWords(len: nat): nat {
    Sat(len + 31) / 32
  }

  function MemoryCost(words: nat): nat {
    Sat(Sat(MEMORY * words) + Sat(words * words) / 512)
  }

  lemma MemoryCostGrows(a: nat, b: nat)
    requires a <= b
    ensures MemoryCost(a) <= MemoryCost(b)
  {
    assert a * a <= a * b <= b * b;
  }

  /** Below the 64-bit limit memory costs three gas a word and the square of the words over 512, rounded
      down. */
  lemma MemoryCostIs(words: nat)
    requires words < 0x1_0000_0000
    ensures 512 * (MemoryCost(words) - 3 * words) <= words * words < 512 * (MemoryCost(words) - 3 * words + 1)
  {
    MulGrows(words, 0xFFFF_FFFF, words);
    MulGrows(words, 0xFFFF_FFFF, 0xFFFF_FFFF);
    CostOfSquare(words, words * words);
  }

  lemma CostOfSquare(words: nat, square: nat)
    requires words < 0x1_0000_0000 && square <= 0xFFFF_FFFF * 0xFFFF_FFFF
    ensures var cost := Sat(Sat(MEMORY * words) + Sat(square) / 512); 512 * (cost - 3 * words) <= square < 512 * (cost - 3 * words + 1)
  {
  }

  /** The length after a successful expansion to `size`. */
  function Grown(len: nat, size: nat): nat {
    if size > len then 32 * NumWords(size) else len
  }

  /** Rounding up covers the request exactly for sizes up to the longest whole number of words. */
  lemma GrownCovers(len: nat, size: nat)
    requires len % 32 == 0 && len <= LONGEST && size <= MAX_U64
    ensures Grown(len, size) % 32 == 0 && len <= Grown(len, size) <= LONGEST
    ensures size <= Grown(len, size) <==> size <= LONGEST
    ensures size > len ==> Grown(len, size) < size + 32
    ensures NumWords(Grown(len, size)) == Grown(len, size) / 32 >= NumWords(len)
  {
  }

  /** What expanding from `len` to `size` costs. Never negative, so the subtraction in the source cannot
      wrap. */
  function ExpansionPrice(len: nat, size: nat): nat {
    if size > len then
      MemoryCostGrows(NumWords(len), NumWords(size));
      MemoryCost(NumWords(size)) - MemoryCost(NumWords(len))
    else 0
  }

  /** What expanding from `len` through the given sizes charges in total. */
  function Charged(len: nat, sizes: seq<nat>): nat
    decreases sizes
  {
    if sizes == [] then 0
    else
      ExpansionPrice(len, sizes[0]) + Charged(Grown(len, sizes[0]), sizes[1..])
  }

  function GrownAll(len: nat, sizes: seq<nat>): nat
    decreases sizes
  {
    if sizes == [] then len else GrownAll(Grown(len, sizes[0]), sizes[1..])
  }

  /** Path independence: however a memory grew, the total charged is the price of its final number of
      words less the price of its first. */
  lemma {:induction false} ChargesTelescope(len: nat, sizes: seq<nat>)
    requires len % 32 == 0 && len <= LONGEST && forall i :: 0 <= i < |sizes| ==> sizes[i] <= LONGEST
    ensures GrownAll(len, sizes) % 32 == 0 && len <= GrownAll(len, sizes) <= LONGEST
    ensures forall i :: 0 <= i < |sizes| ==> sizes[i] <= GrownAll(len, sizes)
    ensures Charged(len, sizes) == MemoryCost(GrownAll(len, sizes) / 32) - MemoryCost(len / 32)
    decreases sizes
  {
    if sizes != [] {
      GrownCovers(len, sizes[0]);
      OneCharge(len, sizes[0]);
      ChargesTelescope(Grown(len, sizes[0]), sizes[1..]);
      forall i | 0 <= i < |sizes| ensures sizes[i] <= GrownAll(len, sizes) {
        if i > 0 {
          assert sizes[i] == sizes[1..][i - 1];
        }
      }
    }
  }

  lemma OneCharge(len: nat, size: nat)
    requires len % 32 == 0 && len <= LONGEST && size <= LONGEST
    ensures ExpansionPrice(len, size) == MemoryCost(Grown(len, size) / 32) - MemoryCost(len / 32)
  {
    assert NumWords(len) == len / 32;
    assert size > len ==> Grown(len, size) / 32 == NumWords(size);
  }

  /** Expands the running memory if it is too short for `offset + len`, paying the difference.
      On failure nothing changes. */
  method ResizeMemory(memory: SharedMemory, gas: Gas, offset: nat, len: nat) returns (ok: bool)
    requires memory.Valid() && memory.checkpoints != [] && gas.Valid()
    modifies memory`buffer, gas`remaining
    ensures memory.Valid() && gas.Valid()
    ensures var size := Sat(offset + len);
            var price := ExpansionPrice(old(memory.Len()), size);
            && (ok <==> price <= old(gas.remaining))
            && gas.remaining == old(gas.remaining) - (if ok then price else 0)
            && memory.Len() == (if ok then Grown(old(memory.Len()), size) else old(memory.Len()))
            && memory.Contexts() == old(memory.Contexts())[|memory.checkpoints| - 1 := Resized(old(memory.Top()), memory.Len())]
  {
    var size := Sat(offset + len);
    var top := memory.buffer[memory.lastCheckpoint..];
    assert memory.Contexts()[|memory.checkpoints| - 1] == top;
    assert Resized(top, |top|) == top;
    if size <= memory.Len() { return true; }
    var newWords := NumWords(size);
    MemoryCostGrows(NumWords(memory.Len()), newWords);
    var cost := MemoryCost(newWords) - MemoryCost(NumWords(memory.Len()));
    ok := gas.RecordCost(cost);
    if ok {
      memory.Resize(newWords * 32);
    }
  }
}
