/** Pooled byte buffers as the reactor sees them: a fixed backing region with
    a position and a limit (the java.nio.ByteBuffer cursors), the acquisition
    it came from, and the pool that logs every release. */
module Buffers {

  /** One octet on the wire. */
  newtype Byte = x: int | 0 <= x < 256

  /** A buffer's state: the acquisition it belongs to, its backing bytes
      (whose length is the capacity), and the position and limit cursors. */
  datatype Window = Window(id: nat, bytes: seq<Byte>, position: nat, limit: nat)

  /** The ByteBuffer invariant 0 <= position <= limit <= capacity holds of every buffer. */
  type ConsumerBuffer = w: Window | w.position <= w.limit <= |w.bytes| witness Window(0, [], 0, 0)

  /** The bytes between position and limit: what a write still has to send,
      or the room a read may still fill. */
  function Remaining(b: ConsumerBuffer): seq<Byte>
  {
    b.bytes[b.position..b.limit]
  }

  /** The bytes put into the buffer since it was last cleared. */
  function Written(b: ConsumerBuffer): seq<Byte>
  {
    b.bytes[..b.position]
  }

  /** Same acquisition, same capacity, same limit. */
  predicate SameRegion(a: ConsumerBuffer, b: ConsumerBuffer)
  {
    a.id == b.id && |a.bytes| == |b.bytes| && a.limit == b.limit
  }

  /** `clear()`: ready for writing the whole capacity again. */
  function Clear(b: ConsumerBuffer): (r: ConsumerBuffer)
    ensures r.id == b.id && |r.bytes| == |b.bytes|
    ensures Written(r) == [] && |Remaining(r)| == |b.bytes|
  {
    b.(position := 0, limit := |b.bytes|)
  }

  /** `flip()`: the readable view is exactly what was written. */
  function Flip(b: ConsumerBuffer): (r: ConsumerBuffer)
    ensures r.id == b.id && r.bytes == b.bytes
    ensures Remaining(r) == Written(b) && Written(r) == []
  {
    b.(limit := b.position, position := 0)
  }

  /** A relative put of `chunk` at the position (what a socket read does to the buffer). */
  function Put(b: ConsumerBuffer, chunk: seq<Byte>): (r: ConsumerBuffer)
    requires |chunk| <= b.limit - b.position
    ensures SameRegion(r, b) && r.position == b.position + |chunk|
    ensures Written(r) == Written(b) + chunk
  {
    var r := b.(bytes := b.bytes[..b.position] + chunk + b.bytes[b.position + |chunk|..],
                position := b.position + |chunk|);
    assert Written(r) == Written(b) + chunk by {
      assert r.bytes[..r.position] == b.bytes[..b.position] + chunk;
    }
    r
  }

  /** Moves the position over `k` bytes that have been consumed (what a socket write does). */
  function Advance(b: ConsumerBuffer, k: nat): (r: ConsumerBuffer)
    requires k <= b.limit - b.position
    ensures SameRegion(r, b) && r.bytes == b.bytes
    ensures Remaining(b) == Remaining(b)[..k] + Remaining(r)
  {
    b.(position := b.position + k)
  }

  /** The bytes still to be sent from a queue of outbound buffers, in queue order. */
  function Flatten(q: seq<ConsumerBuffer>): seq<Byte>
  {
    if q == [] then [] else Remaining(q[0]) + Flatten(q[1..])
  }

  lemma AppendAssoc<T>(a: seq<T>, b: seq<T>, c: seq<T>)
    ensures (a + b) + c == a + (b + c)
  {
  }

  lemma FlattenThree(q: seq<ConsumerBuffer>)
    requires |q| == 3
    ensures Flatten(q) == Remaining(q[0]) + Remaining(q[1]) + Remaining(q[2])
  {
    var t1 := q[1..];
    var t2 := t1[1..];
    assert t2[1..] == [] && t2[0] == q[2] && t1[0] == q[1];
    assert Flatten(t2) == Remaining(q[2]) + [];
    assert Remaining(q[2]) + [] == Remaining(q[2]);
    AppendAssoc(Remaining(q[0]), Remaining(q[1]), Remaining(q[2]));
  }

  lemma FlattenCons(h: ConsumerBuffer, t: seq<ConsumerBuffer>)
    ensures Flatten([h] + t) == Remaining(h) + Flatten(t)
  {
    assert ([h] + t)[1..] == t;
  }

  /** The acquisition ids of a queue, in order. */
  function Ids(q: seq<ConsumerBuffer>): (r: seq<nat>)
    ensures |r| == |q| && forall i :: 0 <= i < |q| ==> r[i] == q[i].id
  {
    seq(|q|, i requires 0 <= i < |q| => q[i].id)
  }

  /** `after` is `before` with a prefix removed from the head; the new head may
      have moved its position (a partly written buffer) but is the same buffer. */
  ghost predicate Drained(before: seq<ConsumerBuffer>, after: seq<ConsumerBuffer>)
  {
    && |after| <= |before|
    && (after != [] ==>
          && SameRegion(after[0], before[|before| - |after|])
          && after[1..] == before[|before| - |after| + 1..])
  }

  /** Popping happens in stages: two drains compose, and the ids popped by
      the whole are those of the first stage followed by those of the second. */
  lemma {:induction false} DrainedTrans(a: seq<ConsumerBuffer>, b: seq<ConsumerBuffer>, c: seq<ConsumerBuffer>)
    requires Drained(a, b) && Drained(b, c)
    ensures Drained(a, c)
    ensures Ids(a[..|a| - |c|]) == Ids(a[..|a| - |b|]) + Ids(b[..|b| - |c|])
  {
    var i, j := |a| - |b|, |b| - |c|;
    if |c| > 0 {
      if j == 0 {
        assert c[1..] == b[1..];
      } else {
        assert b[j] == a[i + j];
        assert c[1..] == b[j + 1..] == a[i + j + 1..];
      }
    }
    var lhs, rhs := Ids(a[..i + j]), Ids(a[..i]) + Ids(b[..j]);
    assert |lhs| == |rhs|;
    forall k | 0 <= k < i + j
      ensures lhs[k] == rhs[k]
    {
      if k >= i {
        assert b[k - i].id == a[k].id by {
          if k - i > 0 { assert b[k - i] == b[1..][k - i - 1]; }
        }
      }
    }
  }

  /** The buffer pool, seen only through the calls the reactor makes on it:
      each acquisition hands out a cleared buffer of the pool's capacity with a
      fresh acquisition id, and each `release()` is logged. */
  class Pool {
    const capacity: nat
    var acquisitions: nat
    var released: seq<nat>

    constructor (capacity: nat)
      ensures this.capacity == capacity && acquisitions == 0 && released == []
    {
      this.capacity := capacity;
      acquisitions := 0;
      released := [];
    }

    method Acquire() returns (b: ConsumerBuffer)
      modifies this`acquisitions
      ensures b.id == old(acquisitions) && acquisitions == old(acquisitions) + 1
      ensures |b.bytes| == capacity && Written(b) == [] && |Remaining(b)| == capacity
    {
      b := Window(acquisitions, seq(capacity, _ => 0 as Byte), 0, capacity);
      acquisitions := acquisitions + 1;
    }

    method Release(b: ConsumerBuffer)
      modifies this`released
      ensures released == old(released) + [b.id]
    {
      released := released + [b.id];
    }
  }
}
