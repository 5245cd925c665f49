/** The fixed-size ring behind the reader (src/util/circular_buffer.rs). */
module Ring {
  import opened Values

  class CircularBuffer {
    var size: nat
    var start: nat
    const items: array<U8>

    ghost predicate Valid()
      reads this
    {
      items.Length > 0 && size <= items.Length && start < items.Length
    }

    /** The elements, oldest first. */
    ghost function Contents(): (s: seq<U8>)
      requires Valid()
      reads this, items
      ensures |s| == size
    {
      seq(size, i requires 0 <= i < size && Valid() reads this, items => items[Place(start, i, items.Length)])
    }

    constructor (n: nat)
      requires n > 0
      ensures Valid() && fresh(items) && items.Length == n && Contents() == []
    {
      items := new U8[n](_ => 0);
      size, start := 0, 0;
    }

    /** Append; on a full buffer the oldest element is lost. */
    method Push(value: U8)
      requires Valid()
      modifies this, items
      ensures Valid()
      ensures Contents() == if old(size) < items.Length then old(Contents()) + [value]
                            else old(Contents())[1..] + [value]
    {
      ghost var was := Contents();
      var n := items.Length;
      if size < n {
        var index := (start + size) % n;
        PlaceMod(start, size, n);
        items[index] := value;
        size := size + 1;
        assert Contents() == was + [value];
      } else {
        var index := start;
        items[index] := value;
        start := (start + 1) % n;
        TurnMod(index, n);
        assert Contents() == was[1..] + [value];
      }
    }

    method PopFront() returns (value: Option<U8>)
      requires Valid()
      modifies this
      ensures Valid()
      ensures old(Contents()) == [] ==> value == None && Contents() == []
      ensures old(Contents()) != [] ==> value == Some(old(Contents())[0]) && Contents() == old(Contents())[1..]
    {
      if size == 0 { return None; }
      ghost var was := Contents();
      var n := items.Length;
      value := Some(items[start]);
      TurnMod(start, n);
      start := (start + 1) % n;
      size := size - 1;
      assert Contents() == was[1..];
    }

    method Front() returns (value: Option<U8>)
      requires Valid()
      ensures value == if Contents() == [] then None else Some(Contents()[0])
    {
      if size == 0 { return None; }
      value := Some(items[start]);
    }
  }

  /** The place of element `i` of a ring of `n` that starts at `start`. */
  function Place(start: nat, i: nat, n: nat): nat {
    if start + i < n then start + i else start + i - n
  }

  lemma PlaceMod(start: nat, i: nat, n: nat)
    requires start < n && i < n
    ensures (start + i) % n == Place(start, i, n)
  {
  }

  lemma TurnMod(start: nat, n: nat)
    requires start < n
    ensures (start + 1) % n == if start + 1 < n then start + 1 else 0
  {
  }
}
