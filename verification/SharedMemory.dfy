/** One buffer with checkpoints that behaves like a stack of separate memories. */
module SharedMemory {
  import opened Prelude

  /** The buffer cut at the checkpoints: one memory per open context. */
  function Cut(buffer: Bytes, checkpoints: seq<nat>): seq<Bytes>
    requires InBounds(buffer, checkpoints)
  {
    seq(|checkpoints|, k requires 0 <= k < |checkpoints| =>
      buffer[checkpoints[k]..if k + 1 < |checkpoints| then checkpoints[k + 1] else |buffer|])
  }

  predicate InBounds(buffer: Bytes, checkpoints: seq<nat>) {
    && (forall k :: 0 <= k < |checkpoints| ==> checkpoints[k] <= |buffer|)
    && (forall k :: 0 < k < |checkpoints| ==> checkpoints[k - 1] <= checkpoints[k])
  }

  /** A memory cut down or extended with zeros. */
  function Resized(m: Bytes, size: nat): Bytes {
    if size <= |m| then m[..size] else m + seq(size - |m|, i => 0)
  }

  /** A memory with `value` written over it at `offset`. */
  function Overwritten(m: Bytes, offset: nat, value: Bytes): Bytes
    requires offset + |value| <= |m|
  {
    m[..offset] + value + m[offset + |value|..]
  }

  /** `len` bytes of data from `offset` on, with zeros where the data ends. */
  function ZeroExtended(data: Bytes, offset: nat, len: nat): Bytes {
    seq(len, i requires 0 <= i < len => if offset + i < |data| then data[offset + i] else 0)
  }

  lemma SamePiece(buffer: Bytes, buffer': Bytes, last: nat, from: nat, to: nat)
    requires from <= to <= last <= |buffer| && last <= |buffer'| && buffer[..last] == buffer'[..last]
    ensures buffer[from..to] == buffer'[from..to]
  {
    forall i | from <= i < to ensures buffer[i] == buffer'[i] {
      assert buffer[i] == buffer[..last][i] && buffer'[i] == buffer'[..last][i];
    }
  }

  /** Changing only what follows the last checkpoint changes only the last memory. */
  lemma CutTop(buffer: Bytes, buffer': Bytes, checkpoints: seq<nat>)
    requires InBounds(buffer, checkpoints) && checkpoints != []
    requires var last := checkpoints[|checkpoints| - 1]; last <= |buffer'| && buffer'[..last] == buffer[..last]
    ensures InBounds(buffer', checkpoints)
    ensures var n := |checkpoints| - 1;
            Cut(buffer', checkpoints) == Cut(buffer, checkpoints)[n := buffer'[checkpoints[n]..]]
  {
    var n := |checkpoints| - 1;
    CheckpointsOrdered(buffer, checkpoints);
    forall k | 0 <= k < n ensures Cut(buffer', checkpoints)[k] == Cut(buffer, checkpoints)[k] {
      SamePiece(buffer, buffer', checkpoints[n], checkpoints[k], checkpoints[k + 1]);
    }
    assert Cut(buffer', checkpoints)[n] == buffer'[checkpoints[n]..];
    assert Cut(buffer', checkpoints) == Cut(buffer, checkpoints)[n := buffer'[checkpoints[n]..]];
  }

  lemma CheckpointsOrdered(buffer: Bytes, checkpoints: seq<nat>)
    requires InBounds(buffer, checkpoints)
    ensures forall i, j :: 0 <= i <= j < |checkpoints| ==> checkpoints[i] <= checkpoints[j]
  {
    forall i, j | 0 <= i <= j < |checkpoints| ensures checkpoints[i] <= checkpoints[j] {
      OrderedBetween(buffer, checkpoints, i, j);
    }
  }

  lemma {:induction false} OrderedBetween(buffer: Bytes, checkpoints: seq<nat>, i: nat, j: nat)
    requires InBounds(buffer, checkpoints) && i <= j < |checkpoints|
    ensures checkpoints[i] <= checkpoints[j]
    decreases j
  {
    if i < j {
      OrderedBetween(buffer, checkpoints, i, j - 1);
    }
  }

  lemma CutOpen(buffer: Bytes, checkpoints: seq<nat>)
    requires InBounds(buffer, checkpoints)
    ensures InBounds(buffer, checkpoints + [|buffer|])
    ensures Cut(buffer, checkpoints + [|buffer|]) == Cut(buffer, checkpoints) + [[]]
  {
    var cs := checkpoints + [|buffer|];
    forall k | 0 <= k < |checkpoints| ensures Cut(buffer, cs)[k] == Cut(buffer, checkpoints)[k] {}
    assert Cut(buffer, cs)[|checkpoints|] == [];
    assert Cut(buffer, cs) == Cut(buffer, checkpoints) + [[]];
  }

  lemma CutClose(buffer: Bytes, checkpoints: seq<nat>)
    requires InBounds(buffer, checkpoints) && checkpoints != []
    ensures var n := |checkpoints| - 1;
            var buffer' := buffer[..checkpoints[n]];
            && InBounds(buffer', checkpoints[..n])
            && Cut(buffer', checkpoints[..n]) == Cut(buffer, checkpoints)[..n]
  {
    var n := |checkpoints| - 1;
    var buffer', cs := buffer[..checkpoints[n]], checkpoints[..n];
    CheckpointsOrdered(buffer, checkpoints);
    forall k | 0 <= k < n ensures Cut(buffer', cs)[k] == Cut(buffer, checkpoints)[k] {
      assert buffer'[checkpoints[k]..checkpoints[k + 1]] == buffer[checkpoints[k]..checkpoints[k + 1]];
    }
    assert Cut(buffer', cs) == Cut(buffer, checkpoints)[..n];
  }

  class SharedMemory {
    var buffer: Bytes
    var checkpoints: seq<nat>
    var lastCheckpoint: nat

    ghost predicate Valid()
      reads this
    {
      && InBounds(buffer, checkpoints)
      && lastCheckpoint == if checkpoints == [] then 0 else checkpoints[|checkpoints| - 1]
    }

    /** The separate memories this object stands for, the running one last. */
    ghost function Contexts(): seq<Bytes>
      requires Valid()
      reads this
    {
      Cut(buffer, checkpoints)
    }

    ghost function Top(): Bytes
      requires Valid() && checkpoints != []
      reads this
    {
      buffer[lastCheckpoint..]
    }

    constructor ()
      ensures Valid() && Contexts() == []
    {
      buffer, checkpoints, lastCheckpoint := [], [], 0;
    }

    method NewContext()
      requires Valid()
      modifies this
      ensures Valid() && Contexts() == old(Contexts()) + [[]]
    {
      var newCheckpoint := |buffer|;
      CutOpen(buffer, checkpoints);
      checkpoints := checkpoints + [newCheckpoint];
      lastCheckpoint := newCheckpoint;
    }

    /** Without an open context nothing happens. */
    method FreeContext()
      requires Valid()
      modifies this
      ensures Valid()
      ensures Contexts() == if old(Contexts()) == [] then [] else old(Contexts())[..|old(Contexts())| - 1]
    {
      if checkpoints != [] {
        CutClose(buffer, checkpoints);
        var oldCheckpoint := checkpoints[|checkpoints| - 1];
        checkpoints := checkpoints[..|checkpoints| - 1];
        lastCheckpoint := if checkpoints == [] then 0 else checkpoints[|checkpoints| - 1];
        buffer := buffer[..oldCheckpoint];
      }
    }

    function Len(): nat
      requires Valid()
      reads this
    {
      |buffer| - lastCheckpoint
    }

    /** Replaces the running memory. */
    method SetTop(memory: Bytes)
      requires Valid() && checkpoints != []
      modifies this`buffer
      ensures Valid() && Top() == memory
      ensures Contexts() == old(Contexts())[|checkpoints| - 1 := memory]
    {
      var buffer' := buffer[..lastCheckpoint] + memory;
      CutTop(buffer, buffer', checkpoints);
      buffer := buffer';
    }

    method Resize(newSize: nat)
      requires Valid() && checkpoints != []
      modifies this`buffer
      ensures Valid() && Len() == newSize
      ensures Contexts() == old(Contexts())[|checkpoints| - 1 := Resized(old(Top()), newSize)]
    {
      SetTop(Resized(buffer[lastCheckpoint..], newSize));
    }

    method Slice(offset: nat, size: nat) returns (bytes: Bytes)
      requires Valid() && checkpoints != [] && offset + size <= Len()
      ensures bytes == Top()[offset..offset + size]
    {
      bytes := buffer[lastCheckpoint..][offset..offset + size];
    }

    method Set(offset: nat, value: Bytes)
      requires Valid() && checkpoints != [] && (value != [] ==> offset + |value| <= Len())
      modifies this`buffer
      ensures Valid()
      ensures Contexts() ==
        if value == [] then old(Contexts()) else old(Contexts())[|checkpoints| - 1 := Overwritten(old(Top()), offset, value)]
    {
      if value != [] {
        SetTop(Overwritten(buffer[lastCheckpoint..], offset, value));
      }
    }

    /** Copies data into memory; whatever the data does not cover becomes zero. */
    method SetData(memoryOffset: nat, dataOffset: nat, len: nat, data: Bytes)
      requires Valid() && checkpoints != [] && memoryOffset + len <= Len()
      modifies this`buffer
      ensures Valid()
      ensures Contexts() ==
        old(Contexts())[|checkpoints| - 1 := Overwritten(old(Top()), memoryOffset, ZeroExtended(data, dataOffset, len))]
    {
      var memory := buffer[lastCheckpoint..];
      if dataOffset >= |data| {
        SetTop(Overwritten(memory, memoryOffset, seq(len, i => 0)));
        assert seq(len, i => 0) == ZeroExtended(data, dataOffset, len);
        return;
      }
      var dataEnd := if dataOffset + len <= |data| then dataOffset + len else |data|;
      var dataLen := dataEnd - dataOffset;
      var copied := Overwritten(memory, memoryOffset, data[dataOffset..dataEnd]);
      var zeros: Bytes := seq(len - dataLen, i => 0);
      assert data[dataOffset..dataEnd] + zeros == ZeroExtended(data, dataOffset, len);
      assert Overwritten(copied, memoryOffset + dataLen, zeros) == Overwritten(memory, memoryOffset, data[dataOffset..dataEnd] + zeros);
      SetTop(Overwritten(copied, memoryOffset + dataLen, zeros));
    }

    /** The two ranges may overlap. */
    method Copy(dst: nat, src: nat, len: nat)
      requires Valid() && checkpoints != [] && src + len <= Len() && dst + len <= Len()
      modifies this`buffer
      ensures Valid()
      ensures Contexts() ==
        old(Contexts())[|checkpoints| - 1 := Overwritten(old(Top()), dst, old(Top())[src..src + len])]
    {
      var memory := buffer[lastCheckpoint..];
      SetTop(Overwritten(memory, dst, memory[src..src + len]));
    }
  }

  /** Resizing keeps bytes as far as both lengths reach and adds zeros. */
  lemma ResizedAt(m: Bytes, size: nat, i: nat)
    requires i < size
    ensures |Resized(m, size)| == size && Resized(m, size)[i] == if i < |m| then m[i] else 0
  {
  }

  lemma OverwrittenAt(m: Bytes, offset: nat, value: Bytes, i: nat)
    requires offset + |value| <= |m| && i < |m|
    ensures |Overwritten(m, offset, value)| == |m|
    ensures Overwritten(m, offset, value)[i] == if offset <= i < offset + |value| then value[i - offset] else m[i]
  {
  }
}
