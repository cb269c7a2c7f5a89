/** Writing a chunk into a file without writing its zero blocks: writeSparseAt in internal/oci/vmimage.go. */
module SparseFile {

  import opened Common

  const SPARSE_BLOCK := 4096
  const COPY_BUFFER := 0x10_0000

  function Min(a: nat, b: nat): nat {
    if a < b then a else b
  }

  /** A byte of a file; past the end a file reads as zero once it is extended. */
  function At(data: seq<Byte>, i: int): Byte {
    if 0 <= i < |data| then data[i] else 0
  }

  /** Byte x of chunk lies in a block of SPARSE_BLOCK bytes that is all zero. */
  predicate InZeroBlock(chunk: seq<Byte>, x: nat)
    requires x < |chunk|
  {
    var b := x - x % SPARSE_BLOCK;
    IsZero(chunk[b..Min(b + SPARSE_BLOCK, |chunk|)])
  }

  /** Byte i of a file that read `was` there, after the first k bytes of chunk were copied to off with zero
      blocks left out. */
  function Copied(was: seq<Byte>, chunk: seq<Byte>, off: nat, k: nat, i: int): Byte
    requires k <= |chunk|
  {
    if off <= i < off + k && !InZeroBlock(chunk, i - off) then chunk[i - off] else At(was, i)
  }

  predicate SameSize(was: seq<Byte>, now: seq<Byte>, end: nat) {
    |was| <= |now| && (end <= |was| ==> |now| == |was|)
  }

  ghost predicate CopiedSparsely(was: seq<Byte>, now: seq<Byte>, chunk: seq<Byte>, off: nat, k: nat)
    requires k <= |chunk|
  {
    SameSize(was, now, off + |chunk|) && forall i :: At(now, i) == Copied(was, chunk, off, k, i)
  }

  function Written(was: seq<Byte>, p: seq<Byte>, off: nat, i: int): Byte {
    if off <= i < off + |p| then p[i - off] else At(was, i)
  }

  /** An open destination: a regular file grows when written past its end, a device does not. */
  class File {
    var data: seq<Byte>
    const device: bool
    /** No write fails, but for one past a device's end. */
    const reliable: bool

    constructor (data: seq<Byte>, device: bool, reliable: bool)
      ensures this.data == data && this.device == device && this.reliable == reliable
    {
      this.data, this.device, this.reliable := data, device, reliable;
    }

    /** Truncate of a file just opened with O_TRUNC: size zero bytes. */
    method Truncate(size: nat)
      modifies this
      ensures |data| == size && IsZero(data)
    {
      data := seq(size, i => 0);
    }

    /** Writes p at off, or fails. */
    method WriteAt(p: seq<Byte>, off: nat) returns (ok: bool)
      modifies this
      ensures ok ==> SameSize(old(data), data, off + |p|) && forall i :: At(data, i) == Written(old(data), p, off, i)
      ensures ok && device ==> |data| == |old(data)| && off + |p| <= |data|
      ensures reliable && (device ==> off + |p| <= |old(data)|) ==> ok
    {
      var fails: bool :| reliable ==> !fails;
      if fails || (device && off + |p| > |data|) { return false; }
      if off + |p| > |data| {
        data := data + seq(off + |p| - |data|, i => 0);
      }
      data := data[..off] + p + data[off + |p|..];
      return true;
    }

    /** writeSparseAt: reads the chunk a buffer at a time and writes only blocks that hold a non-zero byte. */
    method WriteSparseAt(chunk: seq<Byte>, off: nat) returns (ok: bool)
      modifies this
      ensures ok ==> CopiedSparsely(old(data), data, chunk, off, |chunk|)
      ensures reliable && !device ==> ok
    {
      var pos := 0;
      while true
        invariant pos <= |chunk| && pos % SPARSE_BLOCK == 0
        invariant CopiedSparsely(old(data), data, chunk, off, pos)
        decreases |chunk| - pos
      {
        var n := Min(COPY_BUFFER, |chunk| - pos);
        ok := WriteBlocks(chunk, pos, pos + n, off, old(data));
        if !ok { return; }
        pos := pos + n;
        if n < COPY_BUFFER { return true; }
      }
    }

    /** The innermost loop: how far the run of blocks that hold a non-zero byte goes on. */
    static method RunEnd(chunk: seq<Byte>, i: nat, end: nat, hi: nat) returns (j: nat)
      requires i <= end <= hi <= |chunk| && (end % SPARSE_BLOCK == 0 || end == hi)
      requires hi % SPARSE_BLOCK == 0 || hi == |chunk|
      requires forall x :: i <= x < end ==> !InZeroBlock(chunk, x)
      ensures end <= j <= hi && (j % SPARSE_BLOCK == 0 || j == hi)
      ensures forall x :: i <= x < j ==> !InZeroBlock(chunk, x)
    {
      j := end;
      while j < hi
        invariant end <= j <= hi && (j % SPARSE_BLOCK == 0 || j == hi)
        invariant forall x :: i <= x < j ==> !InZeroBlock(chunk, x)
      {
        var e := Min(j + SPARSE_BLOCK, hi);
        BlockFates(chunk, j, e);
        if IsZero(chunk[j..e]) { break; }
        j := e;
      }
    }

    /** The two inner loops over one buffer, chunk[lo..hi]: skip zero blocks, coalesce the others. */
    method WriteBlocks(chunk: seq<Byte>, lo: nat, hi: nat, off: nat, ghost was: seq<Byte>) returns (ok: bool)
      requires lo <= hi <= |chunk| && lo % SPARSE_BLOCK == 0
      requires hi % SPARSE_BLOCK == 0 || hi == |chunk|
      requires CopiedSparsely(was, data, chunk, off, lo)
      modifies this
      ensures ok ==> CopiedSparsely(was, data, chunk, off, hi)
      ensures reliable && !device ==> ok
    {
      var i := lo;
      while i < hi
        invariant lo <= i <= hi && (i % SPARSE_BLOCK == 0 || i == hi)
        invariant CopiedSparsely(was, data, chunk, off, i)
      {
        var end := Min(i + SPARSE_BLOCK, hi);
        BlockFates(chunk, i, end);
        if IsZero(chunk[i..end]) {
          SkipKeeps(was, data, chunk, off, i, end);
          i := end;
          continue;
        }
        ghost var before := data;
        var j := RunEnd(chunk, i, end, hi);
        ok := WriteAt(chunk[i..j], off + i);
        if !ok { return; }
        RunKeeps(was, before, data, chunk, off, i, j);
        i := j;
      }
      return true;
    }
  }

  /** All bytes of one block share its fate. */
  lemma BlockFates(chunk: seq<Byte>, b: nat, end: nat)
    requires b % SPARSE_BLOCK == 0 && b < end <= |chunk|
    requires end == b + SPARSE_BLOCK || (end == |chunk| && end < b + SPARSE_BLOCK)
    ensures forall x :: b <= x < end ==> (InZeroBlock(chunk, x) <==> IsZero(chunk[b..end]))
  {
    forall x | b <= x < end ensures InZeroBlock(chunk, x) <==> IsZero(chunk[b..end]) {
      assert x - x % SPARSE_BLOCK == b;
    }
  }

  lemma SkipKeeps(was: seq<Byte>, now: seq<Byte>, chunk: seq<Byte>, off: nat, k: nat, end: nat)
    requires k <= end <= |chunk| && CopiedSparsely(was, now, chunk, off, k)
    requires forall x :: k <= x < end ==> InZeroBlock(chunk, x)
    ensures CopiedSparsely(was, now, chunk, off, end)
  {
    forall i ensures At(now, i) == Copied(was, chunk, off, end, i) {
      assert At(now, i) == Copied(was, chunk, off, k, i);
    }
  }

  lemma RunKeeps(was: seq<Byte>, before: seq<Byte>, now: seq<Byte>, chunk: seq<Byte>, off: nat, k: nat, end: nat)
    requires k <= end <= |chunk| && CopiedSparsely(was, before, chunk, off, k)
    requires forall x :: k <= x < end ==> !InZeroBlock(chunk, x)
    requires SameSize(before, now, off + end)
    requires forall i :: At(now, i) == Written(before, chunk[k..end], off + k, i)
    ensures CopiedSparsely(was, now, chunk, off, end)
  {
    forall i ensures At(now, i) == Copied(was, chunk, off, end, i) {
      assert At(now, i) == Written(before, chunk[k..end], off + k, i);
      assert At(before, i) == Copied(was, chunk, off, k, i);
    }
  }

  /** Over bytes that read as zero, leaving out the zero blocks is the same as writing the whole chunk. */
  lemma SparseIsDense(was: seq<Byte>, now: seq<Byte>, chunk: seq<Byte>, off: nat)
    requires CopiedSparsely(was, now, chunk, off, |chunk|)
    requires off + |chunk| <= |was| && IsZero(was[off..off + |chunk|])
    ensures now == was[..off] + chunk + was[off + |chunk|..]
  {
    var want := was[..off] + chunk + was[off + |chunk|..];
    forall i | 0 <= i < |was| ensures now[i] == want[i] {
      assert At(now, i) == Copied(was, chunk, off, |chunk|, i);
      if off <= i < off + |chunk| {
        assert was[off..off + |chunk|][i - off] == 0;
        if InZeroBlock(chunk, i - off) { ZeroBlockIsZero(chunk, i - off); }
      }
    }
  }

  lemma ZeroBlockIsZero(chunk: seq<Byte>, x: nat)
    requires x < |chunk| && InZeroBlock(chunk, x)
    ensures chunk[x] == 0
  {
    var b := x - x % SPARSE_BLOCK;
    assert chunk[b..Min(b + SPARSE_BLOCK, |chunk|)][x - b] == chunk[x];
  }
}
