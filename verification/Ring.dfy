/** Sequence facts about a circular byte buffer whose size need not be a power of two. */
module Ring {
  import opened Arithmetic
  import opened Bytes

  /** The unread bytes, oldest first. */
  function Unread(r: seq<byte>, head: nat, tail: nat): (u: seq<byte>)
    requires head < |r| && tail < |r|
    ensures |u| < |r|
  {
    if tail <= head then r[tail..head] else r[tail..] + r[..head]
  }

  lemma EmptyAtStart(r: seq<byte>)
    requires r != []
    ensures Unread(r, 0, 0) == []
  {
  }

  /** (x + cap - y) % cap is the circular distance. */
  lemma Distance(x: nat, y: nat, cap: nat)
    requires x < cap && y < cap
    ensures (x + cap - y) % cap == if y <= x then x - y else x + cap - y
  {
    if y <= x {
      assert (x + cap - y) % cap == (x - y) % cap by { AddModulus(x - y, cap); }
    }
  }

  lemma AddModulus(n: nat, cap: nat)
    requires n < cap
    ensures (n + cap) % cap == n
    ensures (n + 2 * cap) % cap == n
  {
    ModUnique(n + cap, cap, 1, n);
    ModUnique(n + 2 * cap, cap, 2, n);
  }

  lemma BufferedIsUnread(r: seq<byte>, head: nat, tail: nat)
    requires head < |r| && tail < |r|
    ensures (head + |r| - tail) % |r| == |Unread(r, head, tail)|
  {
    Distance(head, tail, |r|);
  }

  /** One slot is always left free: buffered + space = cap - 1. */
  lemma SpaceIsTheRest(r: seq<byte>, head: nat, tail: nat)
    requires head < |r| && tail < |r|
    ensures (tail + 2 * |r| - head - 1) % |r| == |r| - 1 - |Unread(r, head, tail)|
  {
    var n := |r| - 1 - |Unread(r, head, tail)|;
    AddModulus(n, |r|);
    if tail <= head {
      assert tail + 2 * |r| - head - 1 == n + |r|;
    } else {
      assert n == tail - head - 1;
    }
  }

  lemma NextIs(i: nat, cap: nat)
    requires i < cap
    ensures (i + 1) % cap == if i + 1 == cap then 0 else i + 1
  {
  }

  /** Writing at the head and advancing it appends, and overwrites nothing unread. */
  lemma PushAppends(r: seq<byte>, head: nat, tail: nat, b: byte)
    requires head < |r| && tail < |r| && |Unread(r, head, tail)| < |r| - 1
    ensures Unread(r[head := b], (head + 1) % |r|, tail) == Unread(r, head, tail) + [b]
  {
    NextIs(head, |r|);
    var w := r[head := b];
    if tail <= head {
      if head + 1 == |r| {
        assert w[tail..] + w[..0] == r[tail..head] + [b];
      } else {
        assert w[tail..head + 1] == r[tail..head] + [b];
      }
    } else {
      assert w[tail..] + w[..head + 1] == r[tail..] + r[..head] + [b];
    }
  }

  /** Reading at the tail and advancing it removes the oldest byte. */
  lemma PopRemoves(r: seq<byte>, head: nat, tail: nat)
    requires head < |r| && tail < |r| && Unread(r, head, tail) != []
    ensures Unread(r, head, tail)[0] == r[tail]
    ensures Unread(r, head, (tail + 1) % |r|) == Unread(r, head, tail)[1..]
  {
    NextIs(tail, |r|);
    if tail > head {
      assert (r[tail..] + r[..head])[1..] == r[tail + 1..] + r[..head];
    } else {
      assert r[tail..head][1..] == r[tail + 1..head];
    }
  }

  lemma TwoOn(i: nat, cap: nat)
    requires i < cap && cap >= 2
    ensures (i + 2) % cap == if i + 2 >= cap then i + 2 - cap else i + 2
  {
    if i + 2 >= cap {
      ModUnique(i + 2, cap, 1, i + 2 - cap);
    }
  }

  /** Advancing by two is advancing twice, and keeps an even index of an even ring even. */
  lemma NextTwice(i: nat, j: nat, cap: nat)
    requires i < cap && cap >= 2 && j == (i + 1) % cap
    ensures (j + 1) % cap == (i + 2) % cap
    ensures cap % 2 == 0 && i % 2 == 0 ==> (i + 2) % cap % 2 == 0
  {
    NextIs(i, cap);
    NextIs(j, cap);
    TwoOn(i, cap);
  }

  /** Two bytes pushed one after the other. */
  lemma PushTwo(r: seq<byte>, head: nat, tail: nat, b: seq<byte>)
    requires head < |r| && tail < |r| && |b| == 2 && |Unread(r, head, tail)| + 2 < |r|
    ensures var next := (head + 1) % |r|;
            next < |r| && Unread(r[head := b[0]][next := b[1]], (head + 2) % |r|, tail) == Unread(r, head, tail) + b
  {
    hide Unread;
    var next := (head + 1) % |r|;
    NextIs(head, |r|);
    PushAppends(r, head, tail, b[0]);
    PushAppends(r[head := b[0]], next, tail, b[1]);
    NextTwice(head, next, |r|);
    assert b == [b[0]] + [b[1]];
    Assoc(Unread(r, head, tail), [b[0]], [b[1]]);
  }

  /** Two bytes read one after the other. */
  lemma PopTwo(r: seq<byte>, head: nat, tail: nat)
    requires head < |r| && tail < |r| && |Unread(r, head, tail)| >= 2
    ensures var next := (tail + 1) % |r|;
            && next < |r| && Unread(r, head, tail)[0] == r[tail] && Unread(r, head, tail)[1] == r[next]
            && Unread(r, head, (tail + 2) % |r|) == Unread(r, head, tail)[2..]
  {
    hide Unread;
    var next := (tail + 1) % |r|;
    var u := Unread(r, head, tail);
    NextIs(tail, |r|);
    PopRemoves(r, head, tail);
    PopRemoves(r, head, next);
    NextTwice(tail, next, |r|);
    assert u[1..][0] == u[1] && u[1..][1..] == u[2..];
  }
}
