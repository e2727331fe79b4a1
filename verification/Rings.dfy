/** A fixed array with a write index, read as a queue: the last `count` slots
    before `head`, oldest first. */
module Rings {

  function Slot<T>(a: seq<T>, head: int, count: int, i: int): (k: int)
    requires 0 <= head < |a| && 0 <= count <= |a| && 0 <= i < count
    ensures 0 <= k < |a|
  {
    (head - count + i + |a|) % |a|
  }

  function RingView<T>(a: seq<T>, head: int, count: int): (v: seq<T>)
    requires 0 <= head < |a| && 0 <= count <= |a|
    ensures |v| == count
  {
    seq(count, i requires 0 <= i < count => a[Slot(a, head, count, i)])
  }

  lemma {:induction false} Wrap(x: int, n: int)
    requires n > 0 && 0 <= x < 2 * n
    ensures x % n == if x < n then x else x - n
  {
  }

  /** Where the i-th entry was before a push. */
  lemma {:induction false} SlotBeforePush(n: int, head: int, count: int, i: int)
    requires 0 <= head < n && 0 <= count <= n
    ensures var (h, c) := ((head + 1) % n, if count < n then count + 1 else count);
            0 <= i < c ==>
              var k := (h - c + i + n) % n;
              if i == c - 1 then k == head
              else k == (head - count + (if count < n then i else i + 1) + n) % n && k != head
  {
    var h, c := (head + 1) % n, if count < n then count + 1 else count;
    if 0 <= i < c {
      Wrap(head + 1, n);
      Wrap(h - c + i + n, n);
      if i < c - 1 {
        Wrap(head - count + (if count < n then i else i + 1) + n, n);
      }
    }
  }

  /** Writing at `head` and stepping it forward appends; a full ring forgets its
      oldest entry. */
  lemma {:induction false} RingPush<T>(a: seq<T>, head: int, count: int, x: T)
    requires 0 <= head < |a| && 0 <= count <= |a|
    ensures RingView(a[head := x], (head + 1) % |a|, if count < |a| then count + 1 else count)
         == (if count < |a| then RingView(a, head, count) else RingView(a, head, count)[1..]) + [x]
  {
    var c := if count < |a| then count + 1 else count;
    var v := if count < |a| then RingView(a, head, count) else RingView(a, head, count)[1..];
    var w := RingView(a[head := x], (head + 1) % |a|, c);
    forall i | 0 <= i < c ensures w[i] == (v + [x])[i] {
      SlotBeforePush(|a|, head, count, i);
    }
  }

  /** Forgetting the oldest entry. */
  lemma {:induction false} RingPop<T>(a: seq<T>, head: int, count: int)
    requires 0 <= head < |a| && 0 < count <= |a|
    ensures RingView(a, head, count - 1) == RingView(a, head, count)[1..]
    ensures RingView(a, head, count)[0] == a[Slot(a, head, count, 0)]
  {
    var shorter, rest := RingView(a, head, count - 1), RingView(a, head, count)[1..];
    forall i | 0 <= i < count - 1 ensures shorter[i] == rest[i] {
      assert head - (count - 1) + i + |a| == head - count + (i + 1) + |a|;
    }
  }

  /** The last `n` entries. */
  function LastOf<T>(s: seq<T>, n: nat): (r: seq<T>)
    ensures |r| == if |s| <= n then |s| else n
  {
    if |s| <= n then s else s[|s| - n..]
  }

  /** A bounded queue holds the last entries of an unbounded one. */
  lemma {:induction false} LastOfPush<T>(s: seq<T>, n: nat, x: T)
    requires n > 0
    ensures LastOf(s + [x], n) == (if |LastOf(s, n)| < n then LastOf(s, n) else LastOf(s, n)[1..]) + [x]
  {
  }

  lemma {:induction false} RingPushLast<T>(a: seq<T>, head: int, count: int, x: T)
    requires 0 <= head < |a| && 0 <= count <= |a|
    ensures RingView(a[head := x], (head + 1) % |a|, if count < |a| then count + 1 else count)
         == LastOf(RingView(a, head, count) + [x], |a|)
  {
    RingPush(a, head, count, x);
    LastOfPush(RingView(a, head, count), |a|, x);
  }
}
