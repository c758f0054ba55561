/** The circular byte buffer, used by one thread at a time. */
module RingBuffer {
  import opened Bits

  type Byte = b: int | 0 <= b < 0x100

  function Min(a: int, b: int): int {
    if a < b then a else b
  }

  // The slot i places after base in a buffer of n slots.
  function Slot(base: nat, i: nat, n: nat): (s: nat)
    requires base < n && i < n
    ensures s < n
  {
    if base + i < n then base + i else base + i - n
  }

  lemma SlotIsRemainder(base: nat, i: nat, n: nat)
    requires base < n && i < n
    ensures (base + i) % n == Slot(base, i, n)
  {
    Remainder(base + i, n);
  }

  lemma Remainder(x: nat, n: nat)
    requires x < 2 * n
    ensures x % n == if x < n then x else x - n
  {
    if x < n {
      DivModUnique(x, n, 0, x);
    } else {
      DivModUnique(x, n, 1, x - n);
    }
  }

  // The len bytes from slot base on.
  function Window(b: seq<Byte>, base: nat, len: nat): (w: seq<Byte>)
    requires base < |b| && len <= |b|
    ensures |w| == len
  {
    seq(len, i requires 0 <= i < len => b[Slot(base, i, |b|)])
  }

  lemma WindowSplit(b: seq<Byte>, base: nat, len: nat, k: nat)
    requires base < |b| && k <= len < |b|
    ensures Window(b, base, len)[..k] == Window(b, base, k)
    ensures Window(b, base, len)[k..] == Window(b, Slot(base, k, |b|), len - k)
  {
  }

  // What a write of k bytes after the window does: the window grows by them.
  lemma WindowAppend(b: seq<Byte>, b': seq<Byte>, base: nat, len: nat, src: seq<Byte>)
    requires |b'| == |b| && base < |b| && len + |src| < |b|
    requires forall i :: 0 <= i < len ==> b'[Slot(base, i, |b|)] == b[Slot(base, i, |b|)]
    requires forall i :: 0 <= i < |src| ==> b'[Slot(Slot(base, len, |b|), i, |b|)] == src[i]
    ensures Window(b', base, len + |src|) == Window(b, base, len) + src
  {
    var w := Window(b, base, len) + src;
    forall i | 0 <= i < len + |src| ensures Window(b', base, len + |src|)[i] == w[i] {
      if i >= len {
        assert Slot(base, i, |b|) == Slot(Slot(base, len, |b|), i - len, |b|);
      }
    }
  }

  // b with s written at offset at.
  function WriteAt(b: seq<Byte>, at: nat, s: seq<Byte>): (w: seq<Byte>)
    requires at + |s| <= |b|
    ensures |w| == |b|
    ensures forall i :: 0 <= i < |b| ==> w[i] == if at <= i < at + |s| then s[i - at] else b[i]
  {
    b[..at] + s + b[at + |s|..]
  }

  lemma WriteStraight(b: seq<Byte>, base: nat, len: nat, src: seq<Byte>)
    requires base < |b| && len + |src| < |b| && Slot(base, len, |b|) + |src| <= |b|
    ensures Window(WriteAt(b, Slot(base, len, |b|), src), base, len + |src|) == Window(b, base, len) + src
  {
    WindowAppend(b, WriteAt(b, Slot(base, len, |b|), src), base, len, src);
  }

  lemma WriteWrapped(b: seq<Byte>, base: nat, len: nat, src: seq<Byte>, k: nat)
    requires base < |b| && len + |src| < |b| && k < |src| && k == |b| - Slot(base, len, |b|)
    ensures Window(WriteAt(WriteAt(b, Slot(base, len, |b|), src[..k]), 0, src[k..]), base, len + |src|)
            == Window(b, base, len) + src
  {
    WindowAppend(b, WriteAt(WriteAt(b, Slot(base, len, |b|), src[..k]), 0, src[k..]), base, len, src);
  }

  lemma DirectlyAhead(b: seq<Byte>, base: nat, len: nat, src: seq<Byte>)
    requires base < |b| && len + |src| < |b| && Slot(base, len, |b|) + |src| <= |b|
    ensures var b' := WriteAt(b, Slot(base, len, |b|), src);
            Window(b', Slot(base, len, |b|), |src|) == src && Window(b', base, len) == Window(b, base, len)
  {
  }

  lemma ReadStraight(b: seq<Byte>, base: nat, len: nat)
    requires base < |b| && base + len <= |b|
    ensures Window(b, base, len) == b[base..base + len]
  {
  }

  lemma ReadWrapped(b: seq<Byte>, base: nat, len: nat, k: nat)
    requires base < |b| && len <= |b| && k <= len && k == |b| - base
    ensures Window(b, base, len) == b[base..base + k] + b[..len - k]
  {
  }

  lemma TwoWrites(d: seq<Byte>, s: seq<Byte>, t: seq<Byte>)
    requires |s| + |t| <= |d|
    ensures WriteAt(WriteAt(d, 0, s), |s|, t) == WriteAt(d, 0, s + t)
  {
  }

  lemma Accept(accepted: seq<Byte>, taken: seq<Byte>, c: seq<Byte>, src: seq<Byte>)
    requires accepted == taken + c
    ensures accepted + src == taken + (c + src)
  {
  }

  lemma Release(accepted: seq<Byte>, taken: seq<Byte>, c: seq<Byte>, k: nat)
    requires accepted == taken + c && k <= |c|
    ensures accepted == (taken + c[..k]) + c[k..]
  {
  }

  // memcpy(dst + d, src + s, n)
  method Memcpy(dst: array<Byte>, d: nat, src: seq<Byte>, s: nat, n: nat)
    requires d + n <= dst.Length && s + n <= |src|
    modifies dst
    ensures dst[..] == WriteAt(old(dst[..]), d, src[s..s + n])
  {
    forall i | 0 <= i < n {
      dst[d + i] := src[s + i];
    }
  }

  class RingBuffer {
    const bufSize: nat
    const buf: array<Byte>
    var front: nat
    var rear: nat
    var fillSize: int

    // Everything put in and everything taken out since construction.
    ghost var accepted: seq<Byte>
    ghost var taken: seq<Byte>

    ghost predicate Indexed()
      reads this
    {
      && buf.Length == bufSize >= 1
      && front < bufSize && rear < bufSize && 0 <= fillSize < bufSize
      && rear == Slot(front, fillSize, bufSize)
    }

    ghost function Contents(): (s: seq<Byte>)
      requires Indexed()
      reads this, buf
      ensures |s| == fillSize
    {
      Window(buf[..], front, fillSize)
    }

    ghost predicate Valid()
      reads this, buf
    {
      Indexed() && accepted == taken + Contents()
    }

    ghost function Free(): int
      reads this
    {
      bufSize - 1 - fillSize
    }

    constructor (capacity: nat)
      ensures Valid() && Contents() == [] && bufSize == capacity + 1 && fresh(buf)
      ensures accepted == [] && taken == []
    {
      bufSize := capacity + 1;
      buf := new Byte[capacity + 1](_ => 0);
      front, rear, fillSize := 0, 0, 0;
      accepted, taken := [], [];
    }

    method Enqueue(src: seq<Byte>, size: int) returns (n: int)
      requires Valid() && size <= |src|
      modifies this, buf
      ensures Valid()
      ensures n == (if 0 < size <= old(Free()) then size else 0)
      ensures Contents() == old(Contents()) + (if n > 0 then src[..n] else [])
      ensures accepted == old(accepted) + (if n > 0 then src[..n] else []) && taken == old(taken)
    {
      if size <= 0 { return 0; }
      if size > bufSize - fillSize - 1 { return 0; }
      Accept(accepted, taken, Contents(), src[..size]);
      CopyIn(src, size);
      accepted := accepted + src[..size];
      return size;
    }

    // The copying half of Enqueue: in two pieces if it runs past the end.
    method CopyIn(src: seq<Byte>, size: nat)
      requires Indexed() && 0 < size <= |src| && size <= Free()
      modifies this`rear, this`fillSize, buf
      ensures Indexed() && Contents() == old(Contents()) + src[..size]
    {
      hide Window, WriteAt;
      ghost var b := buf[..];
      if size > bufSize - rear {
        var size1 := bufSize - rear;
        var size2 := size - size1;
        WriteWrapped(b, front, fillSize, src[..size], size1);
        assert src[..size][..size1] == src[0..size1] && src[..size][size1..] == src[size1..size1 + size2];
        Memcpy(buf, rear, src, 0, size1);
        Memcpy(buf, 0, src, size1, size2);
        rear := size2;
        fillSize := fillSize + size;
      } else {
        WriteStraight(b, front, fillSize, src[..size]);
        assert src[..size] == src[0..size];
        Memcpy(buf, rear, src, 0, size);
        rear := rear + size;
        if rear == bufSize { rear := 0; }
        fillSize := fillSize + size;
      }
    }

    method Dequeue(dst: array<Byte>, size: int) returns (n: int)
      requires Valid() && size <= dst.Length && dst != buf
      modifies this, dst
      ensures Valid()
      ensures n == (if 0 < size <= |old(Contents())| then size else 0)
      ensures dst[..] == WriteAt(old(dst[..]), 0, old(Contents())[..n])
      ensures Contents() == old(Contents())[n..]
      ensures taken == old(taken) + old(Contents())[..n] && accepted == old(accepted)
    {
      hide WriteAt, Window;
      if size <= 0 { return 0; }
      if size > fillSize { return 0; }
      ghost var before := Contents();
      WindowSplit(buf[..], front, fillSize, size);
      Release(accepted, taken, before, size);
      CopyOut(dst, size);
      if size > bufSize - front {
        var size1 := bufSize - front;
        var size2 := size - size1;
        front := size2;
        fillSize := fillSize - size;
      } else {
        front := front + size;
        if front == bufSize { front := 0; }
        fillSize := fillSize - size;
      }
      taken := taken + before[..size];
      return size;
    }

    // The copying half of Dequeue and Peek.
    method CopyOut(dst: array<Byte>, size: nat)
      requires Indexed() && 0 < size <= dst.Length && size <= fillSize && dst != buf
      modifies dst
      ensures dst[..] == WriteAt(old(dst[..]), 0, Contents()[..size])
    {
      hide WriteAt, Window;
      WindowSplit(buf[..], front, fillSize, size);
      if size > bufSize - front {
        CopyTwice(dst, size, bufSize - front);
      } else {
        ReadStraight(buf[..], front, size);
        Memcpy(dst, 0, buf[..], front, size);
      }
    }

    // In two pieces: up to the end of the buffer, and from its beginning.
    method CopyTwice(dst: array<Byte>, size: nat, size1: nat)
      requires Indexed() && size <= dst.Length && size <= bufSize && dst != buf
      requires size1 == bufSize - front && size1 <= size
      modifies dst
      ensures dst[..] == WriteAt(old(dst[..]), 0, Window(buf[..], front, size))
    {
      hide WriteAt, Window;
      var size2 := size - size1;
      ReadWrapped(buf[..], front, size, size1);
      TwoWrites(dst[..], buf[..][front..front + size1], buf[..][0..size2]);
      Memcpy(dst, 0, buf[..], front, size1);
      Memcpy(dst, size1, buf[..], 0, size2);
    }

    method Peek(dst: array<Byte>, size: int) returns (n: int)
      requires Valid() && size <= dst.Length && dst != buf
      modifies dst
      ensures Valid() && Contents() == old(Contents())
      ensures n == (if 0 < size <= |Contents()| then size else 0)
      ensures dst[..] == WriteAt(old(dst[..]), 0, Contents()[..n])
    {
      if size <= 0 { return 0; }
      if size > fillSize { return 0; }
      CopyOut(dst, size);
      return size;
    }

    // The bytes lying in the k slots from _rear_ on.
    ghost function Ahead(k: nat): (s: seq<Byte>)
      requires Indexed() && k <= Free()
      reads this, buf
      ensures |s| == k
    {
      Window(buf[..], rear, k)
    }

    method MoveRear(size: nat)
      requires Valid() && size <= Free()
      modifies this
      ensures Valid() && front == old(front)
      ensures size < bufSize && rear == Slot(old(rear), size, bufSize)
      ensures Contents() == old(Contents()) + old(Ahead(size))
      ensures accepted == old(accepted) + old(Ahead(size)) && taken == old(taken)
    {
      ghost var added := Ahead(size);
      Accept(accepted, taken, Contents(), added);
      var nowRear := rear;
      nowRear := (nowRear + size) % bufSize;
      SlotIsRemainder(rear, size, bufSize);
      WindowAppend(buf[..], buf[..], front, fillSize, added);
      rear := nowRear;
      fillSize := fillSize + size;
      accepted := accepted + added;
    }

    method MoveFront(size: nat)
      requires Valid() && size <= fillSize
      modifies this
      ensures Valid() && rear == old(rear)
      ensures size < bufSize && front == Slot(old(front), size, bufSize)
      ensures Contents() == old(Contents())[size..]
      ensures taken == old(taken) + old(Contents())[..size] && accepted == old(accepted)
    {
      hide Window;
      ghost var before := Contents();
      Release(accepted, taken, before, size);
      var nowFront := front;
      nowFront := (nowFront + size) % bufSize;
      SlotIsRemainder(front, size, bufSize);
      WindowSplit(buf[..], front, fillSize, size);
      front := nowFront;
      fillSize := fillSize - size;
      taken := taken + before[..size];
    }

    method DirectEnqueSize() returns (n: int)
      requires Valid()
      ensures n == Min(Free(), bufSize - rear)
    {
      var frontNow := front;
      if fillSize == bufSize - 1 { return 0; }
      if rear < frontNow { return frontNow - rear - 1; }
      if front == 0 { return bufSize - rear - 1; }
      return bufSize - rear;
    }

    method DirectDequeSize() returns (n: int)
      requires Valid()
      ensures n == Min(|Contents()|, bufSize - front)
    {
      var rearNow := rear;
      if fillSize == 0 { return 0; }
      if rearNow < front { return bufSize - front; }
      return rearNow - front;
    }

    // Offsets into _buf_: the pointers the source hands out.
    method GetFrontPtr() returns (p: nat)
      requires Valid()
      ensures p == front && (fillSize > 0 ==> buf[p] == Contents()[0])
    {
      return front;
    }

    method GetRearPtr() returns (p: nat)
      requires Valid()
      ensures p == rear && forall k: nat :: 0 < k <= Free() ==> Ahead(k)[0] == buf[p]
    {
      return rear;
    }

    method IsFull() returns (b: bool)
      requires Valid()
      ensures b <==> |Contents()| == bufSize - 1
    {
      return fillSize + 1 >= bufSize;
    }

    method IsEmpty() returns (b: bool)
      requires Valid()
      ensures b <==> Contents() == []
    {
      return fillSize == 0;
    }

    /** Zero-copy writing, as a client does it: at most DirectEnqueSize bytes
        at the rear pointer, then MoveRear. The effect is that of Enqueue. */
    method DirectWrite(data: seq<Byte>)
      requires Valid() && |data| <= Min(Free(), bufSize - rear)
      modifies this, buf
      ensures Valid() && front == old(front)
      ensures rear == if |data| == bufSize - old(rear) then 0 else old(rear) + |data|
      ensures Contents() == old(Contents()) + data
      ensures accepted == old(accepted) + data && taken == old(taken)
    {
      var p := GetRearPtr();
      DirectlyAhead(buf[..], front, fillSize, data);
      Accept(accepted, taken, Contents(), data);
      PutBytes(p, data);
      MoveRear(|data|);
    }

    // The client's own write into the buffer.
    method PutBytes(p: nat, data: seq<Byte>)
      requires Valid() && p == rear && |data| <= Min(Free(), bufSize - rear)
      modifies buf
      ensures Valid() && Contents() == old(Contents()) && Ahead(|data|) == data
    {
      DirectlyAhead(buf[..], front, fillSize, data);
      Memcpy(buf, p, data, 0, |data|);
      assert data[0..|data|] == data;
    }

    /** Any bytes that fit go in with at most two direct writes. */
    method DirectFill(data: seq<Byte>) returns (moves: nat)
      requires Valid() && |data| <= Free()
      modifies this, buf
      ensures Valid() && Contents() == old(Contents()) + data && moves <= 2
      ensures accepted == old(accepted) + data && taken == old(taken)
    {
      var n := DirectEnqueSize();
      var k := Min(n, |data|);
      DirectWrite(data[..k]);
      moves := 1;
      if k < |data| {
        DirectWrite(data[k..]);
        assert data[..k] + data[k..] == data;
        moves := 2;
      } else {
        assert data[..k] == data;
      }
    }

    /** Peek then MoveFront is Dequeue. */
    method PeekAndMove(dst: array<Byte>, size: int) returns (n: int)
      requires Valid() && size <= dst.Length && dst != buf
      modifies this, dst
      ensures Valid()
      ensures n == (if 0 < size <= |old(Contents())| then size else 0)
      ensures dst[..] == WriteAt(old(dst[..]), 0, old(Contents())[..n])
      ensures Contents() == old(Contents())[n..]
      ensures taken == old(taken) + old(Contents())[..n] && accepted == old(accepted)
    {
      n := Peek(dst, size);
      MoveFront(n);
    }

    /** Any number of bytes held comes out with at most two direct reads. */
    method DirectDrain(size: nat) returns (out: seq<Byte>, moves: nat)
      requires Valid() && size <= |Contents()|
      modifies this
      ensures Valid() && out == old(Contents())[..size] && Contents() == old(Contents())[size..] && moves <= 2
      ensures taken == old(taken) + out && accepted == old(accepted)
    {
      ghost var before := Contents();
      var n := DirectDequeSize();
      var k := Min(n, size);
      out := DirectRead(k);
      moves := 1;
      if k < size {
        var rest := DirectRead(size - k);
        assert before[..size] == before[..k] + before[k..][..size - k];
        assert before[k..][size - k..] == before[size..];
        out := out + rest;
        moves := 2;
      }
    }

    // k bytes read at the front pointer, then MoveFront.
    method DirectRead(k: nat) returns (out: seq<Byte>)
      requires Valid() && k <= Min(|Contents()|, bufSize - front)
      modifies this
      ensures Valid() && out == old(Contents())[..k] && Contents() == old(Contents())[k..]
      ensures taken == old(taken) + out && accepted == old(accepted)
      ensures front == if k == bufSize - old(front) then 0 else old(front) + k
    {
      var p := GetFrontPtr();
      out := buf[p..p + k];
      WindowSplit(buf[..], front, fillSize, k);
      ReadStraight(buf[..], front, k);
      MoveFront(k);
    }
  }
}
