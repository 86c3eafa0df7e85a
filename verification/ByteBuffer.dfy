// The growable byte buffer that stages socket input: a FIFO whose dead prefix
// is reclaimed lazily, invisibly to its readers.
module ByteBuffer {
  class Buffer {
    var storage: string
    var head: nat

    ghost predicate Valid()
      reads this
    {
      head <= |storage|
    }

    /** The unread bytes, in arrival order. */
    function Unread(): string
      requires Valid()
      reads this
    {
      storage[head..]
    }

    constructor ()
      ensures Valid() && Unread() == ""
    {
      storage, head := "", 0;
    }

    /** Reclaims the dead prefix once it dominates the allocation. */
    method MaybeCompact()
      requires Valid()
      modifies this
      ensures Valid() && Unread() == old(Unread())
      ensures head == 0 || head == old(head) <= 4096 || head == old(head) <= |storage| / 2
    {
      if head > 4096 && head > |storage| / 2 {
        storage := storage[head..];
        head := 0;
      }
    }

    method Append(p: string)
      requires Valid()
      modifies this
      ensures Valid() && Unread() == old(Unread()) + p
    {
      if p == "" { return; }
      MaybeCompact();
      storage := storage + p;
    }

    /** Consuming more than there is clamps. */
    method Consume(n: nat)
      requires Valid()
      modifies this
      ensures Valid()
      ensures Unread() == if n <= |old(Unread())| then old(Unread())[n..] else ""
      ensures Unread() == "" ==> storage == "" && head == 0
    {
      var size := |storage| - head;
      head := head + (if n > size then size else n);
      if head == |storage| {
        storage := "";
        head := 0;
      }
    }

    method Clear()
      modifies this
      ensures Valid() && Unread() == ""
    {
      storage := "";
      head := 0;
    }
  }
}
