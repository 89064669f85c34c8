/** The mutex-guarded ring behind the outbox and the batch writer. Every locked section is one call. */
module BoundedQueues {
  import opened Common

  lemma NextIndex(i: nat, cap: nat)
    requires i < cap
    ensures (i + 1) % cap == if i + 1 == cap then 0 else i + 1
  {
  }

  class BoundedQueue<T(0)> {
    const cap: nat
    const buf: array<T>
    var head: nat
    var tail: nat
    var size: nat
    var closed: bool
    var pushes: nat
    var pops: nat

    /** The queued items, oldest first, wherever the ring wraps. */
    ghost function Contents(): (items: seq<T>)
      reads this, buf
      requires Valid()
      ensures |items| == size
    {
      if head + size <= cap then buf[head..head + size] else buf[head..] + buf[..head + size - cap]
    }

    ghost predicate Valid()
      reads this
    {
      && buf.Length == cap && head < cap && size <= cap
      && tail == (if head + size < cap then head + size else head + size - cap)
      && pushes == pops + size
    }

    constructor (capacity: nat)
      ensures Valid() && Contents() == [] && !closed && pushes == 0
      ensures cap == (if capacity < 1 then 1 else capacity) && fresh(buf)
    {
      var c := if capacity < 1 then 1 else capacity;
      cap := c;
      buf := new T[c];
      head, tail, size, closed, pushes, pops := 0, 0, 0, false, 0, 0;
    }

    /** The common tail of `try_push` and `push`, under the lock. */
    method Append(item: T)
      requires Valid() && size < cap
      modifies this`tail, this`size, this`pushes, buf
      ensures Valid() && Contents() == old(Contents()) + [item] && pushes == old(pushes) + 1
    {
      buf[tail] := item;
      NextIndex(tail, cap);
      tail := (tail + 1) % cap;
      size := size + 1;
      pushes := pushes + 1;
    }

    method TryPush(item: T) returns (ok: bool)
      requires Valid()
      modifies this`tail, this`size, this`pushes, buf
      ensures Valid()
      ensures ok == (!closed && |old(Contents())| < cap)
      ensures Contents() == if ok then old(Contents()) + [item] else old(Contents())
      ensures pushes == old(pushes) + if ok then 1 else 0
    {
      if closed || size >= cap { return false; }
      Append(item);
      return true;
    }

    /**
     * The locked section of `push` once its wait is over. Without a timeout the wait ends only when the
     * queue is closed or has room; with one it may end because the time is up.
     */
    method Push(item: T, timeoutMs: int) returns (ok: bool)
      requires Valid() && (timeoutMs <= 0 ==> closed || size < cap)
      modifies this`tail, this`size, this`pushes, buf
      ensures Valid()
      ensures ok == (!closed && |old(Contents())| < cap)
      ensures Contents() == if ok then old(Contents()) + [item] else old(Contents())
      ensures pushes == old(pushes) + if ok then 1 else 0
    {
      if timeoutMs > 0 && !(closed || size < cap) { return false; }
      if closed { return false; }
      Append(item);
      return true;
    }

    method TryPop() returns (item: Option<T>)
      requires Valid()
      modifies this`head, this`size, this`pops
      ensures Valid()
      ensures item == (if old(Contents()) == [] then None else Some(old(Contents())[0]))
      ensures Contents() == if old(Contents()) == [] then [] else old(Contents())[1..]
      ensures pops == old(pops) + if item.Some? then 1 else 0
    {
      if size == 0 { return None; }
      item := Some(buf[head]);
      NextIndex(head, cap);
      head := (head + 1) % cap;
      size := size - 1;
      pops := pops + 1;
    }

    /** The locked section of `pop` once its wait is over: closed, nonempty, or out of time. */
    method Pop() returns (item: Option<T>)
      requires Valid()
      modifies this`head, this`size, this`pops
      ensures Valid()
      ensures item == (if old(Contents()) == [] then None else Some(old(Contents())[0]))
      ensures Contents() == if old(Contents()) == [] then [] else old(Contents())[1..]
      ensures pops == old(pops) + if item.Some? then 1 else 0
    {
      if !(closed || size > 0) { return None; }
      item := TryPop();
    }

    method Close()
      requires Valid()
      modifies this`closed
      ensures Valid() && closed && Contents() == old(Contents())
    {
      closed := true;
    }
  }
}
