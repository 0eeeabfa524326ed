/**
 The native ring buffer of the client: one slot is always left empty, and a push that does not
 fit drops the oldest samples. As atomic calls it is a bounded queue that keeps the newest.
 */
module RingBuffers {
  import opened Arithmetic

  /** The last `n` elements of `s`, or all of them. */
  function LastN<T>(s: seq<T>, n: nat): (r: seq<T>)
    ensures |r| == if |s| <= n then |s| else n
  {
    if |s| <= n then s else s[|s| - n..]
  }

  /** Samples between two positions, as both ends of the ring compute it. */
  function Distance(w: nat, r: nat, capacity: nat): nat
    requires w < capacity && r < capacity
  {
    if w >= r then w - r else capacity - r + w
  }

  lemma ModDistance(w: nat, r: nat, m: nat)
    requires m > 0 && r <= w < r + m
    ensures Distance(w % m, r % m, m) == w - r
  {
    var x := r % m + (w - r);
    ModAdd(r, w - r, m);
    if x < m {
      DivUnique(x, m, 0, x);
    } else {
      DivUnique(x, m, 1, x - m);
    }
  }

  /** How far the reader of a ring with room for `size` is after `added` samples arrive behind `total`. */
  function NewGone(total: nat, gone: nat, added: nat, size: nat): nat {
    if total + added <= gone + size then gone else total + added - size
  }

  /** Whole stereo frames stay whole exactly when they fit, or the ring has room for an even number. */
  lemma FramesStayWhole(total: nat, gone: nat, added: nat, size: nat)
    requires gone <= total && total % 2 == 0 && gone % 2 == 0 && added % 2 == 0
    ensures NewGone(total, gone, added, size) % 2 == 0 <==> total + added <= gone + size || size % 2 == 0
  {
  }

  /** The slots of the client's ring: two seconds of stereo. */
  const CLIENT_CAPACITY := 192000

  /** One frame more than fits: the oldest left sample goes, and every frame begins with a right one. */
  lemma FrameSplit(contents: seq<int>, frame: seq<int>)
    requires |contents| == CLIENT_CAPACITY - 2 && |frame| == 2
    ensures LastN(contents + frame, CLIENT_CAPACITY - 1) == contents[1..] + frame
    ensures NewGone(|contents|, 0, |frame|, CLIENT_CAPACITY - 1) == 1
  {
  }

  class RingBuffer {
    const buffer: array<int>
    const capacity: nat
    var writePos: nat
    var readPos: nat

    // everything pushed since the ring was last cleared, and how much of it has left the ring
    ghost var tape: seq<int>
    ghost var gone: nat

    ghost predicate Valid()
      reads this, buffer
    {
      && buffer.Length == capacity > 0
      && gone <= |tape| < gone + capacity
      && writePos == |tape| % capacity
      && readPos == gone % capacity
      && forall v: nat | v < |tape| <= v + capacity :: buffer[v % capacity] == tape[v]
    }

    ghost function Contents(): seq<int>
      reads this
      requires gone <= |tape|
    {
      tape[gone..]
    }

    constructor (capacity: nat)
      requires capacity > 0
      ensures Valid() && fresh(buffer) && this.capacity == capacity && Contents() == []
    {
      buffer := new int[capacity](_ => 0);
      this.capacity := capacity;
      writePos, readPos := 0, 0;
      tape, gone := [], 0;
    }

    method Available() returns (n: nat)
      requires Valid()
      ensures n == |Contents()|
    {
      ModDistance(|tape|, gone, capacity);
      n := Distance(writePos, readPos, capacity);
    }

    method FreeSpace() returns (n: nat)
      requires Valid()
      ensures n == capacity - 1 - |Contents()|
    {
      var available := Available();
      n := capacity - available - 1;
    }

    method NextSlot(slot: nat, ghost at: nat) returns (next: nat)
      requires capacity > 0 && slot == at % capacity
      ensures next == (at + 1) % capacity
    {
      ModStep(at, capacity);
      next := (slot + 1) % capacity;
    }

    /** Producer: the copy loop, after the oldest samples have been dropped. */
    method Store(data: seq<int>)
      requires buffer.Length == capacity > 0 && writePos == |tape| % capacity
      requires forall v: nat | v < |tape| <= v + capacity :: buffer[v % capacity] == tape[v]
      modifies this`writePos, this`tape, buffer
      ensures tape == old(tape) + data && writePos == |tape| % capacity
      ensures forall v: nat | v < |tape| <= v + capacity :: buffer[v % capacity] == tape[v]
    {
      var w := writePos;
      var i := 0;
      while i < |data|
        invariant 0 <= i <= |data| && tape == old(tape) + data[..i]
        invariant w == |tape| % capacity
        invariant forall v: nat | v < |tape| <= v + capacity :: buffer[v % capacity] == tape[v]
      {
        forall v: nat | v < |tape| < v + capacity
          ensures v % capacity != w
        {
          ModDistinct(v, |tape|, capacity);
        }
        buffer[w] := data[i];
        w := NextSlot(w, |tape|);
        tape := tape + [data[i]];
        i := i + 1;
      }
      writePos := w;
    }

    /** Keeps the newest capacity - 1 samples of the old contents followed by `data`. */
    method Push(data: seq<int>)
      requires Valid()
      modifies this, buffer
      ensures Valid()
      ensures Contents() == LastN(old(Contents()) + data, capacity - 1)
      ensures tape == old(tape) + data
      ensures gone == NewGone(|old(tape)|, old(gone), |data|, capacity - 1)
    {
      if |data| == 0 {
        assert old(Contents()) + data == Contents();
        return;
      }
      var free := FreeSpace();
      if |data| > free {
        var drop := |data| - free;
        ModAdd(gone, drop, capacity);
        readPos := (readPos + drop) % capacity;
        gone := gone + drop;
      }
      Store(data);
      assert tape[old(gone)..] == old(Contents()) + data;
    }

    /** Consumer: removes a prefix and copies it to the front of `out`. */
    method Pop(out: array<int>, maxCount: nat) returns (count: nat)
      requires Valid() && out != buffer && maxCount <= out.Length
      modifies this`readPos, this`gone, out
      ensures Valid() && tape == old(tape)
      ensures count == if maxCount < |old(Contents())| then maxCount else |old(Contents())|
      ensures out[..count] == old(Contents())[..count]
      ensures out[count..] == old(out[count..])
      ensures Contents() == old(Contents())[count..]
    {
      var available := Available();
      count := if maxCount < available then maxCount else available;
      var r := readPos;
      var i := 0;
      while i < count
        invariant Valid() && Contents() == old(Contents()) && tape == old(tape)
        invariant 0 <= i <= count && r == (gone + i) % capacity
        invariant out[..i] == Contents()[..i]
        invariant out[count..] == old(out[count..])
      {
        out[i] := buffer[r];
        r := NextSlot(r, gone + i);
        i := i + 1;
      }
      readPos := r;
      gone := gone + count;
    }

    method Clear()
      requires Valid()
      modifies this
      ensures Valid() && Contents() == []
    {
      readPos, writePos := 0, 0;
      tape, gone := [], 0;
    }
  }
}
