/**
 The ring buffer between the clock and the audio callback (lib/rdringbuffer.cpp): a block of
 memory whose size is a power of two, with a read and a write pointer that wrap, proved to
 be a bounded queue. Masking a pointer with size - 1 is written as the remainder by size.
 */
module RingBuffer {
  import opened Arithmetic

  function Power2(k: nat): (p: nat)
    ensures p > 0
  {
    if k == 0 then 1 else 2 * Power2(k - 1)
  }

  /** A pointer that has moved at most once around the memory. */
  function Wrap(p: nat, size: nat): (r: nat)
    requires p < 2 * size
    ensures r == if p < size then p else p - size
  {
    var turns := if p < size then 0 else 1;
    QuotientIs(p, size, turns, p - turns * size);
    p % size
  }

  /** How many places lie from the read pointer to the write pointer. */
  function Count(r: nat, w: nat, size: nat): (n: nat)
    requires r < size && w < size
    ensures n < size
  {
    if r <= w then w - r else w - r + size
  }

  /** What the queue holds, from the pointers and the memory. */
  function Held<T>(mem: seq<T>, r: nat, w: nat): (c: seq<T>)
    requires r < |mem| && w < |mem|
    ensures |c| == Count(r, w, |mem|)
  {
    seq(Count(r, w, |mem|), i requires 0 <= i < Count(r, w, |mem|) => mem[Wrap(r + i, |mem|)])
  }

  /** `m` is `mem` with `data` copied to the write pointer on, wrapping at the end. */
  ghost predicate Stored<T>(mem: seq<T>, m: seq<T>, w: nat, data: seq<T>)
    requires w < |mem| && |data| < |mem|
  {
    && |m| == |mem|
    && (forall i :: 0 <= i < |data| ==> m[Wrap(w + i, |mem|)] == data[i])
    && (forall j :: 0 <= j < |mem| && Count(w, j, |mem|) >= |data| ==> m[j] == mem[j])
  }

  /** Data stored behind what is held, the write pointer moving past it, is appended. */
  lemma StoredIsAppended<T>(mem: seq<T>, m: seq<T>, r: nat, w: nat, data: seq<T>)
    requires r < |mem| && w < |mem| && Count(r, w, |mem|) + |data| < |mem|
    requires Stored(mem, m, w, data)
    ensures Held(m, r, Wrap(w + |data|, |mem|)) == Held(mem, r, w) + data
  {
    var c := Count(r, w, |mem|);
    forall i | 0 <= i < c + |data|
      ensures Held(m, r, Wrap(w + |data|, |mem|))[i] == (Held(mem, r, w) + data)[i]
    {
      var j := Wrap(r + i, |mem|);
      if i < c {
        assert Count(w, j, |mem|) >= |data|;
      } else {
        assert j == Wrap(w + (i - c), |mem|);
      }
    }
  }

  /** Moving the read pointer forward drops from the front. */
  lemma AdvancedIsDropped<T>(mem: seq<T>, r: nat, w: nat, n: nat)
    requires r < |mem| && w < |mem| && n <= Count(r, w, |mem|)
    ensures Held(mem, Wrap(r + n, |mem|), w) == Held(mem, r, w)[n..]
  {
    var r' := Wrap(r + n, |mem|);
    forall i | 0 <= i < Count(r', w, |mem|)
      ensures Held(mem, r', w)[i] == Held(mem, r, w)[n..][i]
    {
      assert Wrap(r' + i, |mem|) == Wrap(r + (n + i), |mem|);
    }
  }

  class RDRingBuffer<T(0)> {
    const buf: array<T>
    const size: nat
    var writePtr: nat
    var readPtr: nat

    ghost predicate Valid()
      reads this
    {
      && buf.Length == size && size > 1
      && writePtr < size && readPtr < size
    }

    ghost function Contents(): (c: seq<T>)
      requires Valid()
      reads this, buf
      ensures |c| < size
    {
      Held(buf[..], readPtr, writePtr)
    }

    /** The size is the least power of two, from two on, that is not below `sz`. */
    constructor (sz: int)
      ensures Valid() && fresh(buf) && Contents() == []
      ensures size >= sz && (size > 2 ==> size / 2 < sz)
      ensures exists k: nat :: size == Power2(k)
    {
      var powerOfTwo := 1;
      var s := 2;
      assert Power2(1) == 2 * Power2(0);
      while s < sz
        invariant powerOfTwo >= 1 && s == Power2(powerOfTwo) && s >= 2
        invariant s > 2 ==> s / 2 < sz
        decreases sz - s
      {
        powerOfTwo := powerOfTwo + 1;
        s := 2 * s;
      }
      size := s;
      buf := new T[s];
      writePtr := 0;
      readPtr := 0;
    }

    method Reset()
      requires Valid()
      modifies this
      ensures Valid() && Contents() == []
    {
      readPtr := 0;
      writePtr := 0;
    }

    method ReadSpace() returns (n: nat)
      requires Valid()
      ensures n == |Contents()|
    {
      var w, r := writePtr, readPtr;
      if w > r {
        return w - r;
      }
      n := Wrap(w - r + size, size);
    }

    /** One place always stays empty. */
    method WriteSpace() returns (n: nat)
      requires Valid()
      ensures n == size - 1 - |Contents()|
    {
      var w, r := writePtr, readPtr;
      if w > r {
        return Wrap(r - w + size, size) - 1;
      } else if w < r {
        return (r - w) - 1;
      }
      return size - 1;
    }

    /** Copies `data` to the write pointer on, in two parts if it wraps. */
    method Store(data: seq<T>)
      requires Valid() && |data| < size
      modifies this`writePtr, buf
      ensures Valid() && readPtr == old(readPtr)
      ensures writePtr == Wrap(old(writePtr) + |data|, size)
      ensures Stored(old(buf[..]), buf[..], old(writePtr), data)
    {
      ghost var w := writePtr;
      var cnt2 := writePtr + |data|;
      var n1, n2 := |data|, 0;
      if cnt2 > size {
        n1 := size - writePtr;
        n2 := Wrap(cnt2, size);
      }
      forall i | 0 <= i < n1 {
        buf[writePtr + i] := data[i];
      }
      writePtr := Wrap(writePtr + n1, size);
      if n2 > 0 {
        forall i | 0 <= i < n2 {
          buf[writePtr + i] := data[n1 + i];
        }
        writePtr := Wrap(writePtr + n2, size);
      }
    }

    /** Takes as much of `src` as fits. */
    method Write(src: seq<T>) returns (toWrite: nat)
      requires Valid()
      modifies this`writePtr, buf
      ensures Valid()
      ensures toWrite == if |src| <= size - 1 - old(|Contents()|) then |src| else size - 1 - old(|Contents()|)
      ensures Contents() == old(Contents()) + src[..toWrite]
    {
      var freeCnt := WriteSpace();
      if freeCnt == 0 {
        assert src[..0] == [];
        return 0;
      }
      toWrite := if |src| > freeCnt then freeCnt else |src|;
      ghost var mem, w := buf[..], writePtr;
      Store(src[..toWrite]);
      StoredIsAppended(mem, buf[..], readPtr, w, src[..toWrite]);
    }

    /** Moves up to `cnt` elements from the front of the queue to `dest`. */
    method Read(dest: array<T>, cnt: nat) returns (toRead: nat)
      requires Valid() && dest != buf && cnt <= dest.Length
      modifies this`readPtr, dest
      ensures Valid()
      ensures toRead == if cnt <= old(|Contents()|) then cnt else old(|Contents()|)
      ensures forall i :: 0 <= i < toRead ==> dest[i] == old(Contents())[i]
      ensures forall i :: toRead <= i < dest.Length ==> dest[i] == old(dest[i])
      ensures Contents() == old(Contents())[toRead..]
    {
      var freeCnt := ReadSpace();
      if freeCnt == 0 {
        return 0;
      }
      toRead := if cnt > freeCnt then freeCnt else cnt;
      ghost var mem, r := buf[..], readPtr;
      AdvancedIsDropped(mem, r, writePtr, toRead);
      var cnt2 := readPtr + toRead;
      var n1, n2 := toRead, 0;
      if cnt2 > size {
        n1 := size - readPtr;
        n2 := Wrap(cnt2, size);
      }
      forall i | 0 <= i < n1 {
        dest[i] := buf[readPtr + i];
      }
      readPtr := Wrap(readPtr + n1, size);
      if n2 > 0 {
        forall i | 0 <= i < n2 {
          dest[n1 + i] := buf[readPtr + i];
        }
        readPtr := Wrap(readPtr + n2, size);
      }
      assert buf[..] == mem && readPtr == Wrap(r + toRead, size);
      forall i | 0 <= i < toRead
        ensures dest[i] == mem[Wrap(r + i, size)]
      {
      }
    }
  }
}
