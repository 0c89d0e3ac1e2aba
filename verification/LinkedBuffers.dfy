/** The buffer cache as bio.c stores it: buffers threaded on a doubly linked MRU list. Its methods
    walk and rewire the links and are proved to compute the functions of BufferCache. */
module LinkedBuffers {
  import opened Collections
  import opened Layout
  import opened BufferCache

  const HEAD := NBUF       // bcache.head; buffers are named by their index in bcache.buf

  function Ring(order: seq<nat>): (r: seq<nat>)
  {
    [HEAD] + order + [HEAD]
  }

  /** next and prev thread exactly the list head, order[0], order[1], ..., head. */
  predicate Linked(next: seq<nat>, prev: seq<nat>, order: seq<nat>)
  {
    && |next| == |prev| == NBUF + 1
    && AllBelow(order, NBUF) && Distinct(order)
    && forall k :: 0 <= k <= |order| ==>
         next[Ring(order)[k]] == Ring(order)[k + 1] && prev[Ring(order)[k + 1]] == Ring(order)[k]
  }

  class LinkedCache {
    var disk: seq<Block>
    var bufs: seq<Buf>
    var next: seq<nat>
    var prev: seq<nat>
    ghost var abs: Cache

    ghost predicate Valid()
      reads this
    {
      Shape(abs) && abs.disk == disk && abs.bufs == bufs && Linked(next, prev, abs.order)
    }

    /** binit */
    constructor (disk: seq<Block>)
      ensures Valid() && abs == Init(disk)
    {
      this.disk := disk;
      var next0: seq<nat>, prev0: seq<nat> := seq(NBUF + 1, _ => HEAD), seq(NBUF + 1, _ => HEAD);
      ghost var order: seq<nat> := [];
      for i := 0 to NBUF
        invariant |order| == i && forall k :: 0 <= k < i ==> order[k] == i - 1 - k
        invariant Linked(next0, prev0, order)
      {
        LinkFront(next0, prev0, order, i);
        next0 := next0[i := next0[HEAD]];
        prev0 := prev0[i := HEAD];
        prev0 := prev0[next0[HEAD] := i];
        next0 := next0[HEAD := i];
        order := [i] + order;
      }
      this.next, this.prev := next0, prev0;
      this.bufs := InitBufs(NBUF, ZERO_BLOCK);
      abs := Init(disk);
      assert order == Init(disk).order;
    }

    method Bget(p: Pid, dev: nat, blockno: nat) returns (r: Option<nat>)
      requires Valid()
      modifies this
      ensures Valid()
      ensures match BufferCache.Bget(old(abs), p, dev, blockno)
              case None => r == None && abs == old(abs)
              case Some((c, i)) => r == Some(i) && abs == c
    {
      var hit := FindCached(dev, blockno);
      if hit.Some? {
        var b := hit.value;
        abs := BufferCache.Bget(abs, p, dev, blockno).value.0;
        bufs := bufs[b := bufs[b].(refcnt := bufs[b].refcnt + 1)];
        return hit;
      }
      var free := FindVictim();
      if free.Some? {
        var b := free.value;
        abs := BufferCache.Bget(abs, p, dev, blockno).value.0;
        bufs := bufs[b := bufs[b].(dev := dev, blockno := blockno, valid := false, dirty := false, refcnt := 1)];
        return free;
      }
      return None;
    }

    /** bget's first loop: along next, for the block. */
    method FindCached(dev: nat, blockno: nat) returns (r: Option<nat>)
      requires Valid()
      ensures r == Lookup(bufs, abs.order, dev, blockno)
    {
      ghost var order := abs.order;
      var b := next[HEAD];
      ghost var k := 0;
      assert Ring(order)[0] == HEAD && order[0..] == order;
      while b != HEAD
        invariant 0 <= k <= NBUF && b == Ring(order)[k + 1]
        invariant Lookup(bufs, order, dev, blockno) == Lookup(bufs, order[k..], dev, blockno)
        decreases NBUF - k
      {
        if bufs[b].dev == dev && bufs[b].blockno == blockno {
          return Some(b);
        }
        assert order[k..][1..] == order[k + 1..];
        b := next[b];
        k := k + 1;
      }
      return None;
    }

    /** Its second loop: along prev, for a buffer to recycle. */
    method FindVictim() returns (r: Option<nat>)
      requires Valid()
      ensures r == Victim(bufs, abs.order)
    {
      ghost var order := abs.order;
      var b := prev[HEAD];
      ghost var k := NBUF;
      assert Ring(order)[k + 1] == HEAD && prev[Ring(order)[k + 1]] == Ring(order)[k] && order[..k] == order;
      while b != HEAD
        invariant 0 <= k <= NBUF && b == Ring(order)[k]
        invariant Victim(bufs, order) == Victim(bufs, order[..k])
        decreases k
      {
        if bufs[b].refcnt == 0 && !bufs[b].dirty {
          return Some(b);
        }
        assert order[..k][..k - 1] == order[..k - 1];
        b := prev[b];
        k := k - 1;
      }
      return None;
    }

    /** The first half of brelse's move: b's neighbours are linked to each other. */
    method Unlink(b: nat, ghost order: seq<nat>)
      requires Linked(next, prev, order) && b in order
      modifies this`next, this`prev
      ensures Linked(next, prev, Remove(order, b))
    {
      LinkRemove(next, prev, order, b);
      prev := prev[next[b] := prev[b]];
      next := next[prev[b] := next[b]];
    }

    /** The second half: b is linked in behind the list head. */
    method PushFront(b: nat, ghost order: seq<nat>)
      requires Linked(next, prev, order) && b < NBUF && b !in order
      modifies this`next, this`prev
      ensures Linked(next, prev, [b] + order)
    {
      LinkFront(next, prev, order, b);
      next := next[b := next[HEAD]];
      prev := prev[b := HEAD];
      prev := prev[next[HEAD] := b];
      next := next[HEAD := b];
    }

    /** The section of brelse under bcache.lock. */
    method Unref(p: Pid, b: nat)
      requires Valid() && b in abs.order && bufs[b].refcnt > 0
      modifies this
      ensures Valid() && abs == BufferCache.Unref(old(abs), p, b)
    {
      var refcnt := bufs[b].refcnt - 1;
      bufs := bufs[b := bufs[b].(refcnt := refcnt)];
      if refcnt == 0 {
        Unlink(b, abs.order);
        PushFront(b, Remove(abs.order, b));
      }
      abs := BufferCache.Unref(abs, p, b);
    }
  }

  lemma LinkFront(next: seq<nat>, prev: seq<nat>, order: seq<nat>, b: nat)
    requires Linked(next, prev, order) && b < NBUF && b !in order
    ensures next[HEAD] <= NBUF
    ensures Linked(next[b := next[HEAD]][HEAD := b], prev[b := HEAD][next[HEAD] := b], [b] + order)
  {
    var r, r' := Ring(order), Ring([b] + order);
    assert next[r[0]] == r[1];
    var n', p' := next[b := next[HEAD]][HEAD := b], prev[b := HEAD][next[HEAD] := b];
    assert r' == [HEAD, b] + r[1..];
    forall k | 0 <= k <= |order| + 1
      ensures n'[r'[k]] == r'[k + 1] && p'[r'[k + 1]] == r'[k]
    {
      if k >= 2 {
        assert r'[k] == r[k - 1] && r'[k + 1] == r[k];
        assert r[k - 1] == order[k - 2];
        assert r[k] != r[1];
      }
    }
  }

  lemma LinkRemove(next: seq<nat>, prev: seq<nat>, order: seq<nat>, b: nat)
    requires Linked(next, prev, order) && b in order
    ensures next[b] <= NBUF && prev[b] <= NBUF && next[b] != b
    ensures Linked(next[prev[b] := next[b]], prev[next[b] := prev[b]], Remove(order, b))
  {
    var m := IndexOf(order, b);
    RingAt(next, prev, order, m);
    RingAt(next, prev, order, m + 1);
    var rest := Remove(order, b);
    RemoveBelow(order, b);
    forall k | 0 <= k <= |rest|
      ensures next[prev[b] := next[b]][Ring(rest)[k]] == Ring(rest)[k + 1]
      ensures prev[next[b] := prev[b]][Ring(rest)[k + 1]] == Ring(rest)[k]
    {
      LinkRemoveAt(next, prev, order, m, k);
    }
  }

  lemma RemoveBelow(order: seq<nat>, b: nat)
    requires AllBelow(order, NBUF) && b in order
    ensures AllBelow(Remove(order, b), NBUF)
    ensures forall k :: 0 <= k <= |order| ==> Ring(Remove(order, b))[k] <= NBUF
  {
    var m := IndexOf(order, b);
    var rest := Remove(order, b);
    assert forall k :: 0 <= k < |rest| ==> rest[k] == if k < m then order[k] else order[k + 1];
  }

  lemma RingAt(next: seq<nat>, prev: seq<nat>, order: seq<nat>, k: nat)
    requires Linked(next, prev, order) && k <= |order|
    ensures Ring(order)[k] <= NBUF && Ring(order)[k + 1] <= NBUF
    ensures next[Ring(order)[k]] == Ring(order)[k + 1] && prev[Ring(order)[k + 1]] == Ring(order)[k]
  {
  }

  lemma LinkRemoveAt(next: seq<nat>, prev: seq<nat>, order: seq<nat>, m: nat, k: nat)
    requires Linked(next, prev, order) && m < |order| && k < |order|
    ensures var r, r' := Ring(order), Ring(order[..m] + order[m + 1..]);
            && r[m] <= NBUF && r[m + 2] <= NBUF && r'[k] <= NBUF && r'[k + 1] <= NBUF
            && next[r[m] := r[m + 2]][r'[k]] == r'[k + 1]
            && prev[r[m + 2] := r[m]][r'[k + 1]] == r'[k]
  {
    var r, r' := Ring(order), Ring(order[..m] + order[m + 1..]);
    RingAt(next, prev, order, m);
    RingAt(next, prev, order, m + 1);
    assert r' == r[..m + 1] + r[m + 2..];
    if k < m {
      RingAt(next, prev, order, k);
      assert r'[k] == r[k] && r'[k + 1] == r[k + 1] && r[k] != r[m] && r[k + 1] != r[m + 2];
    } else if k > m {
      RingAt(next, prev, order, k + 1);
      assert r'[k] == r[k + 1] && r'[k + 1] == r[k + 2] && r[k + 1] != r[m] && r[k + 2] != r[m + 2];
    }
  }
}
