/** The fixed-capacity, overwrite-oldest circular buffer both histories use: 50 output
    lines in the process state and 300 hashrate samples in the mining state. Only the
    operations `ProcessState` and `MiningState` use are given: `Put`, `Peek` (oldest),
    `PeekLast` (newest), `Size` and iteration over the contents, oldest first. */
module Buffer {

  /** `items` holds the buffered values, oldest first. */
  datatype Ring<T> = Ring(capacity: nat, items: seq<T>) {

    predicate Valid() {
      0 < capacity && |items| <= capacity
    }

    function Size(): nat {
      |items|
    }

    /** Appends `x`; when the buffer is full the oldest value makes room for it. */
    function Put(x: T): (r: Ring<T>)
      requires Valid()
      ensures r.Valid() && r.capacity == capacity
      ensures r.Size() == if Size() < capacity then Size() + 1 else capacity
      ensures r.Size() > 0 && r.items[r.Size() - 1] == x
      ensures r.items[..r.Size() - 1] == items[Size() + 1 - r.Size()..]
    {
      if |items| < capacity then Ring(capacity, items + [x])
      else Ring(capacity, items[1..] + [x])
    }

    /** The oldest buffered value. */
    function Peek(): T
      requires Size() > 0
    {
      items[0]
    }

    /** The most recently buffered value. */
    function PeekLast(): T
      requires Size() > 0
    {
      items[|items| - 1]
    }
  }

  /** A new, empty buffer of the given capacity. */
  function Empty<T>(capacity: nat): (r: Ring<T>)
    requires 0 < capacity
    ensures r.Valid() && r.capacity == capacity && r.Size() == 0
  {
    Ring(capacity, [])
  }

  /** Puts every value of `xs`, first to last. */
  function PutAll<T>(r: Ring<T>, xs: seq<T>): (r': Ring<T>)
    requires r.Valid()
    ensures r'.Valid() && r'.capacity == r.capacity
    decreases |xs|
  {
    if xs == [] then r else PutAll(r.Put(xs[0]), xs[1..])
  }

  /** The last `n` values of `s` (all of `s` when it is shorter). */
  function LastN<T>(s: seq<T>, n: nat): (r: seq<T>)
    ensures |r| == if |s| < n then |s| else n
  {
    if |s| < n then s else s[|s| - n..]
  }

  lemma LastNOfLastN<T>(a: seq<T>, b: seq<T>, n: nat)
    ensures LastN(LastN(a, n) + b, n) == LastN(a + b, n)
  {
    if |a| >= n {
      var k := |a| - n;
      assert a + b == a[..k] + (a[k..] + b);
    }
  }

  /** A put is the newest-`capacity` window of the old contents followed by the new value. */
  lemma PutKeepsNewest<T>(r: Ring<T>, x: T)
    requires r.Valid()
    ensures r.Put(x).items == LastN(r.items + [x], r.capacity)
  {
  }

  /** After any sequence of puts the buffer holds exactly the `capacity` most recent
      values, oldest first: every put beyond the capacity drops the oldest one. */
  lemma {:induction false} PutAllKeepsNewest<T>(r: Ring<T>, xs: seq<T>)
    requires r.Valid()
    ensures PutAll(r, xs).items == LastN(r.items + xs, r.capacity)
    decreases |xs|
  {
    if xs == [] {
      assert r.items + xs == r.items;
    } else {
      var r1 := r.Put(xs[0]);
      var rest := xs[1..];
      var c := r.capacity;
      PutAllKeepsNewest(r1, rest);
      PutKeepsNewest(r, xs[0]);
      LastNOfLastN(r.items + [xs[0]], rest, c);
      AppendHead(r.items, xs);
    }
  }

  lemma AppendHead<T>(a: seq<T>, xs: seq<T>)
    requires xs != []
    ensures a + [xs[0]] + xs[1..] == a + xs
  {
    assert [xs[0]] + xs[1..] == xs;
  }

  /** Reading the newest value returns the value put last. */
  lemma PeekLastAfterPut<T>(r: Ring<T>, x: T)
    requires r.Valid()
    ensures r.Put(x).PeekLast() == x
  {
  }
}
