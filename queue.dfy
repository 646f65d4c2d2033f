/** The growable ring-buffer FIFO of queue.h / queue.c.
  A queue is a backing array `q` of `capacity` cells, the index `begin` of
  the head, the index `end` of the next free cell and the element count
  `size`.  The count is kept apart from the two indices because a full and
  an empty queue both have `begin == end`.  `Contents` is the logical
  sequence of elements, head first. */
module Queue {

  /** Capacity of a freshly created queue (QUEUE_CAP). */
  const QUEUE_CAP: nat := 4

  /** The index that follows `i` in a ring of `n` cells. */
  function Next(i: nat, n: nat): (r: nat)
    requires i < n
    ensures r < n
    ensures r == if i + 1 == n then 0 else i + 1
  {
    (i + 1) % n
  }

  /** The `size` cells of the ring `s` read from `begin` on, wrapping
    around the end. */
  ghost function Window<T>(s: seq<T>, begin: nat, size: nat): (r: seq<T>)
    requires begin < |s| && size <= |s|
    ensures |r| == size
  {
    if begin + size <= |s| then s[begin..begin + size] else s[begin..] + s[..begin + size - |s|]
  }

  /** Writing `el` into the cell just past the window extends it by `el`. */
  lemma WindowPush<T>(s: seq<T>, begin: nat, size: nat, el: T)
    requires begin < |s| && size < |s|
    ensures Window(s[if begin + size < |s| then begin + size else begin + size - |s| := el], begin, size + 1) ==
            Window(s, begin, size) + [el]
  {
    var pos := if begin + size < |s| then begin + size else begin + size - |s|;
    var t := s[pos := el];
    if begin + size + 1 <= |s| {
      assert t[begin..begin + size + 1] == s[begin..begin + size] + [el];
    } else if begin + size <= |s| {
      assert t[begin..] == s[begin..] && t[..begin + size + 1 - |s|] == [el];
    } else {
      assert t[begin..] == s[begin..];
      assert t[..begin + size + 1 - |s|] == s[..begin + size - |s|] + [el];
    }
  }

  /** Moving `begin` one cell on drops the head of the window. */
  lemma WindowPop<T>(s: seq<T>, begin: nat, size: nat)
    requires begin < |s| && 0 < size <= |s|
    ensures Window(s, Next(begin, |s|), size - 1) == Window(s, begin, size)[1..]
  {
  }

  /** Growing the ring behind an unwrapped window leaves the window alone. */
  lemma WindowGrow<T>(old_: seq<T>, r: seq<T>, begin: nat, size: nat)
    requires begin < |old_| && begin + size <= |old_| && |old_| <= |r|
    requires r[..|old_|] == old_
    ensures Window(r, begin, size) == Window(old_, begin, size)
  {
    forall i | begin <= i < begin + size ensures r[i] == old_[i] {
      assert r[..|old_|][i] == r[i];
    }
    assert r[begin..begin + size] == old_[begin..begin + size];
  }

  class RingQueue<T(0)> {
    // public view
    ghost var Contents: seq<T>
    ghost var Repr: set<object>

    // the fields of queue_t
    var q: array<T>
    var capacity: nat
    var begin: nat
    var end: nat
    var size: nat

    /** The relation between the indices and the logical contents. */
    ghost predicate Valid()
      reads this, Repr
      ensures Valid() ==> this in Repr && q in Repr
    {
      Repr == {this, q} &&
      q.Length == capacity && 0 < capacity &&
      begin < capacity && end < capacity && size <= capacity &&
      end == (if begin + size < capacity then begin + size else begin + size - capacity) &&
      Contents == Window(q[..], begin, size)
    }

    /** create_queue: an empty queue over QUEUE_CAP cells. */
    constructor Create()
      ensures Valid() && fresh(Repr)
      ensures Contents == []
      ensures capacity == QUEUE_CAP && begin == 0 && end == 0 && size == 0
    {
      q := new T[QUEUE_CAP];
      capacity := QUEUE_CAP;
      begin, end, size := 0, 0, 0;
      Contents := [];
      Repr := {this, q};
    }

    /** The i-th element of the contents sits at cell (begin + i) mod capacity. */
    lemma ElementAt(i: nat)
      requires Valid() && i < size
      ensures Contents[i] == q[if begin + i < capacity then begin + i else begin + i - capacity]
    {
    }

    /** `begin == end` exactly when the queue is empty or full; `size`
      tells the two apart. */
    lemma IndicesMeet()
      requires Valid()
      ensures begin == end <==> (size == 0 || size == capacity)
      ensures size == 0 <==> Contents == []
    {
    }

    /** change_capacity: reallocate the backing array to `newSize` cells and,
      when the contents wrap around the end of the old array (or fill it, in
      which case `begin == end` and the prefix before `end` is the wrapped
      part), move the prefix q[0..end) to just past the old capacity. */
    method ChangeCapacity(newSize: nat)
      requires Valid()
      requires capacity <= newSize
      requires end < begin || capacity == size ==> capacity + end < newSize
      modifies Repr
      ensures Valid() && fresh(q) && fresh(Repr - old(Repr))
      ensures Contents == old(Contents)
      ensures capacity == newSize && begin == old(begin) && size == old(size)
      ensures end == if old(end) < old(begin) || old(capacity) == old(size)
                     then old(end) + old(capacity) else old(end)
    {
      ghost var oldQ := q[..];
      var oldCapacity := capacity;
      q := Realloc(q, newSize);
      if end < begin || oldCapacity == size {
        MoveBlock(q, oldCapacity, end);
        WrappedMoved(oldQ, q[..], begin, size, end);
        end := end + oldCapacity;
      } else {
        WindowGrow(oldQ, q[..], begin, size);
      }
      capacity := newSize;
      Repr := {this, q};
    }

    /** After the move, the old wrapped contents lie contiguously from `begin`. */
    static lemma WrappedMoved(old_: seq<T>, r: seq<T>, begin: nat, size: nat, end: nat)
      requires begin < |old_| && end <= begin && begin + size == |old_| + end
      requires |old_| + end <= |r|
      requires r[..|old_|] == old_
      requires r[|old_|..|old_| + end] == old_[..end]
      ensures Window(r, begin, size) == Window(old_, begin, size)
    {
      assert r[begin..begin + size] == r[begin..|old_|] + r[|old_|..|old_| + end];
      assert r[begin..|old_|] == old_[begin..];
      if end == 0 {
        assert old_[begin..] + old_[..0] == old_[begin..begin + size];
      }
    }

    /** realloc: a fresh block of `n` cells that starts with the cells of `a`. */
    static method Realloc(a: array<T>, n: nat) returns (b: array<T>)
      requires a.Length <= n
      ensures fresh(b) && b.Length == n
      ensures b[..a.Length] == a[..]
    {
      b := new T[n];
      var i := 0;
      while i < a.Length
        invariant 0 <= i <= a.Length
        invariant forall j :: 0 <= j < i ==> b[j] == a[j]
      {
        b[i] := a[i];
        i := i + 1;
      }
    }

    /** memcpy(a + at, a, count): copy the first `count` cells to `at`, which
      lies past them, and leave every other cell alone. */
    static method MoveBlock(a: array<T>, at: nat, count: nat)
      requires count <= at && at + count <= a.Length
      modifies a
      ensures a[..at] == old(a[..at])
      ensures a[at..at + count] == old(a[..count])
      ensures a[at + count..] == old(a[at + count..])
    {
      var j := 0;
      while j < count
        invariant 0 <= j <= count
        invariant forall t :: 0 <= t < at ==> a[t] == old(a[t])
        invariant forall t :: 0 <= t < j ==> a[at + t] == old(a[t])
        invariant forall t :: at + j <= t < a.Length ==> a[t] == old(a[t])
      {
        a[at + j] := a[j];
        j := j + 1;
      }
    }

    /** push: append `el` at the tail, doubling the capacity first when the
      queue is full.  The status is 0 (success); the failing status is only
      produced by a failed allocation, which this model does not have. */
    method Push(el: T) returns (status: int)
      requires Valid()
      modifies Repr
      ensures Valid() && fresh(Repr - old(Repr))
      ensures status == 0
      ensures Contents == old(Contents) + [el]
      ensures size == old(size) + 1
      ensures capacity == if old(size) == old(capacity) then 2 * old(capacity) else old(capacity)
    {
      if size == capacity {
        ChangeCapacity(2 * capacity);
      }
      Insert(el);
      status := 0;
    }

    /** The tail of push once there is room: write `el` at `end` and move
      `end` on. */
    method Insert(el: T)
      requires Valid() && size < capacity
      modifies this, q
      ensures Valid() && Repr == old(Repr) && q == old(q)
      ensures Contents == old(Contents) + [el]
      ensures size == old(size) + 1 && capacity == old(capacity)
    {
      ghost var before := q[..];
      q[end] := el;
      assert q[..] == before[end := el];
      WindowPush(before, begin, size, el);
      end := Next(end, capacity);
      size := size + 1;
      Contents := Contents + [el];
    }

    /** pop: remove and return the head.  There is no emptiness check in the
      source: callers must not pop an empty queue. */
    method Pop() returns (el: T)
      requires Valid()
      requires Contents != []
      modifies this
      ensures Valid() && Repr == old(Repr) && q == old(q)
      ensures el == old(Contents)[0]
      ensures Contents == old(Contents)[1..]
      ensures size == old(size) - 1 && capacity == old(capacity)
    {
      el := q[begin];
      WindowPop(q[..], begin, size);
      begin := Next(begin, capacity);
      size := size - 1;
      Contents := Contents[1..];
    }

    /** get_size */
    method GetSize() returns (n: nat)
      requires Valid()
      ensures n == |Contents|
    {
      n := size;
    }

    /** empty */
    method Empty() returns (b: bool)
      requires Valid()
      ensures b <==> Contents == []
    {
      b := size == 0;
    }
  }
}
