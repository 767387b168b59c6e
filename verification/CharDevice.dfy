/**
  The character device: one 300-byte buffer per minor, an offset per open file, short
  reads and writes at the end of the buffer.
 */
module CharDevice {
  import opened CInt

  const BUFFER_SIZE := 300
  const EFAULT := 14
  const ENOSPC := 28

  type Buffer = b: seq<byte> | |b| == BUFFER_SIZE witness seq(BUFFER_SIZE, _ => 0)

  const ZEROED: Buffer := seq(BUFFER_SIZE, _ => 0)

  // ---- What one call does to one buffer ----

  /** The length of a transfer of n bytes at offset off. */
  function Fits(off: nat, n: nat): nat {
    if off >= BUFFER_SIZE then 0 else if n < BUFFER_SIZE - off then n else BUFFER_SIZE - off
  }

  function Stored(b: Buffer, off: nat, data: seq<byte>): Buffer {
    var n := Fits(off, |data|);
    if n == 0 then b else b[..off] + data[..n] + b[off + n..]
  }

  function Taken(b: Buffer, off: nat, count: nat): seq<byte> {
    var n := Fits(off, count);
    if n == 0 then [] else b[off..off + n]
  }

  function WriteReply(off: nat, n: nat): int {
    if off >= BUFFER_SIZE then -ENOSPC else Fits(off, n)
  }

  /** The reference meaning of a write: one byte after the other, those past the end ignored. */
  function Poked(b: Buffer, off: nat, data: seq<byte>): Buffer
    decreases data
  {
    if data == [] then b
    else Poked(if off < BUFFER_SIZE then b[off := data[0]] else b, off + 1, data[1..])
  }

  lemma {:induction false} StoredAt(b: Buffer, off: nat, data: seq<byte>, k: nat)
    requires k < BUFFER_SIZE
    ensures Stored(b, off, data)[k] == if off <= k < off + |data| then data[k - off] else b[k]
  {
    var n := Fits(off, |data|);
    if n > 0 && off + n <= k {
      assert Stored(b, off, data)[k] == b[off + n..][k - off - n];
    }
  }

  lemma {:induction false} PokedAt(b: Buffer, off: nat, data: seq<byte>, k: nat)
    requires k < BUFFER_SIZE
    ensures Poked(b, off, data)[k] == if off <= k < off + |data| then data[k - off] else b[k]
    decreases data
  {
    if data != [] {
      PokedAt(if off < BUFFER_SIZE then b[off := data[0]] else b, off + 1, data[1..], k);
    }
  }

  /** The block copy of the driver is the byte-by-byte write. */
  lemma WriteIsBytewise(b: Buffer, off: nat, data: seq<byte>)
    ensures Stored(b, off, data) == Poked(b, off, data)
  {
    forall k | 0 <= k < BUFFER_SIZE ensures Stored(b, off, data)[k] == Poked(b, off, data)[k] {
      StoredAt(b, off, data, k);
      PokedAt(b, off, data, k);
    }
  }

  /** Two writes in a row, the second at the offset the first one left, are one write. */
  lemma StoredTwice(b: Buffer, off: nat, x: seq<byte>, y: seq<byte>)
    ensures Stored(Stored(b, off, x), off + Fits(off, |x|), y) == Stored(b, off, x + y)
    ensures Fits(off, |x + y|) == Fits(off, |x|) + Fits(off + Fits(off, |x|), |y|)
  {
    var off' := off + Fits(off, |x|);
    var b1 := Stored(b, off, x);
    forall k | 0 <= k < BUFFER_SIZE ensures Stored(b1, off', y)[k] == Stored(b, off, x + y)[k] {
      StoredAt(b, off, x, k);
      StoredAt(b1, off', y, k);
      StoredAt(b, off, x + y, k);
    }
    assert Stored(b1, off', y) == Stored(b, off, x + y);
  }

  lemma TakenTwice(b: Buffer, off: nat, m: nat, n: nat)
    ensures Taken(b, off, m) + Taken(b, off + Fits(off, m), n) == Taken(b, off, m + n)
  {}

  function Repeat(block: seq<byte>, n: nat): seq<byte> {
    if n == 0 then [] else Repeat(block, n - 1) + block
  }

  // ---- The driver on its buffers ----

  class File {
    const data: array<byte>   // private_data
    var off: nat

    constructor (d: array<byte>)
      ensures data == d && off == 0
    {
      data, off := d, 0;
    }
  }

  class Device {
    const buffers: seq<array<byte>>

    ghost predicate Valid() {
      && (forall i :: 0 <= i < |buffers| ==> buffers[i].Length == BUFFER_SIZE)
      && (forall i, j :: 0 <= i < j < |buffers| ==> buffers[i] != buffers[j])
    }

    ghost function Content(minor: nat): Buffer
      requires Valid() && minor < |buffers|
      reads buffers
    {
      buffers[minor][..]
    }

    constructor (instances: nat)
      ensures Valid() && |buffers| == instances
      ensures forall m :: 0 <= m < instances ==> Content(m) == ZEROED
      ensures forall m, k :: 0 <= m < instances && 0 <= k < 300 ==> buffers[m][k] == 0
      ensures forall m :: 0 <= m < instances ==> fresh(buffers[m])
    {
      var bs: seq<array<byte>> := [];
      for i := 0 to instances
        invariant |bs| == i
        invariant forall k :: 0 <= k < i ==> fresh(bs[k]) && bs[k].Length == BUFFER_SIZE
        invariant forall k :: 0 <= k < i ==> bs[k][..] == ZEROED
        invariant forall k, x :: 0 <= k < i && 0 <= x < 300 ==> bs[k][x] == 0
        invariant forall k, l :: 0 <= k < l < i ==> bs[k] != bs[l]
      {
        var b := new byte[BUFFER_SIZE](_ => 0);
        assert b[..] == ZEROED;
        bs := bs + [b];
      }
      buffers := bs;
    }

    method Open(minor: nat) returns (err: int, f: File?)
      ensures minor >= |buffers| ==> err == -14 && f == null
      ensures minor < |buffers| ==> err == 0 && f != null && fresh(f) && f.data == buffers[minor] && f.off == 0
    {
      if minor >= |buffers| {
        return -EFAULT, null;
      }
      f := new File(buffers[minor]);
      err := 0;
    }

    /** The reply's length is the return value; the offset moves by it. */
    method Read(f: File, ghost minor: nat, count: nat) returns (reply: seq<byte>)
      requires Valid() && minor < |buffers| && f.data == buffers[minor]
      modifies f`off
      ensures reply == Taken(Content(minor), old(f.off), count)
      ensures f.off == old(f.off) + |reply| && |reply| <= count
      ensures |reply| < count ==> f.off >= 300
      ensures old(f.off) <= 300 ==> f.off <= 300 && reply == Content(minor)[old(f.off)..f.off]
    {
      if f.off >= BUFFER_SIZE {
        return [];
      }
      var len := if count < BUFFER_SIZE - f.off then count else BUFFER_SIZE - f.off;
      reply := f.data[f.off..f.off + len];
      f.off := f.off + len;
    }

    method Write(f: File, ghost minor: nat, data: seq<byte>) returns (ret: int)
      requires Valid() && minor < |buffers| && f.data == buffers[minor]
      modifies f`off, f.data
      ensures ret == WriteReply(old(f.off), |data|)
      ensures if old(f.off) >= 300 then ret == -28 && f.off == old(f.off) else ret >= 0 && f.off == old(f.off) + ret
      ensures 0 <= ret < |data| ==> f.off == 300
      ensures Content(minor) == Stored(old(Content(minor)), old(f.off), data)
      ensures f.off == old(f.off) + Fits(old(f.off), |data|)
      ensures forall m :: 0 <= m < |buffers| && m != minor ==> Content(m) == old(Content(m))
    {
      if f.off >= BUFFER_SIZE {
        return -ENOSPC;
      }
      var len := if |data| < BUFFER_SIZE - f.off then |data| else BUFFER_SIZE - f.off;
      ghost var b := Content(minor);
      var at := f.off;
      forall i | 0 <= i < len {
        f.data[at + i] := data[i];
      }
      f.off := f.off + len;
      forall k | 0 <= k < BUFFER_SIZE ensures f.data[k] == Stored(b, at, data)[k] {
        StoredAt(b, at, data, k);
      }
      assert f.data[..] == Stored(b, at, data);
      ret := len;
    }

    /** A client that writes a block until an error: it ends with the offset at the end of
        the buffer, which holds what one write of that many repetitions of the block leaves. */
    method WriteUntilError(f: File, ghost minor: nat, block: seq<byte>) returns (ghost writes: nat)
      requires Valid() && minor < |buffers| && f.data == buffers[minor]
      requires f.off <= BUFFER_SIZE && |block| > 0
      modifies f`off, f.data
      ensures f.off == BUFFER_SIZE == old(f.off) + Fits(old(f.off), |Repeat(block, writes)|)
      ensures Content(minor) == Stored(old(Content(minor)), old(f.off), Repeat(block, writes))
    {
      ghost var b0, start := Content(minor), f.off;
      writes := 0;
      var s := 0;
      while s >= 0
        invariant Content(minor) == Stored(b0, start, Repeat(block, writes))
        invariant f.off == start + Fits(start, |Repeat(block, writes)|)
        invariant s < 0 ==> f.off == BUFFER_SIZE
        decreases BUFFER_SIZE - f.off, s >= 0
      {
        ghost var done := Repeat(block, writes);
        StoredTwice(b0, start, done, block);
        s := Write(f, minor, block);
        assert Content(minor) == Stored(b0, start, done + block);
        assert f.off == start + Fits(start, |done + block|);
        writes := writes + 1;
        assert Repeat(block, writes) == done + block;
      }
    }

    /** A client that reads until 0: it ends, with all the bytes from the offset on. */
    method ReadUntilEnd(f: File, ghost minor: nat, size: nat) returns (text: seq<byte>)
      requires Valid() && minor < |buffers| && f.data == buffers[minor]
      requires f.off <= BUFFER_SIZE && size > 0
      modifies f`off
      ensures f.off == BUFFER_SIZE
      ensures text == Content(minor)[old(f.off)..]
    {
      text := [];
      while true
        invariant old(f.off) <= f.off <= BUFFER_SIZE
        invariant text == Content(minor)[old(f.off)..f.off]
        decreases BUFFER_SIZE - f.off
      {
        var part := Read(f, minor, size);
        if |part| <= 0 {
          break;
        }
        text := text + part;
      }
    }
  }
}
