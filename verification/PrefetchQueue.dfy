/** modules/prefetch_queue.sv: the 6-byte ring between the BIU, which fills it a
    word at a time, and the execution unit, which takes bytes by count. */
module PrefetchQueue {
  import opened Machine

  const DEPTH: nat := 6

  datatype Regs = Regs(q: seq<Byte>, head: nat, tail: nat, cnt: nat)

  datatype In = In(writeEn: bool, data: Word, word: bool, pop: nat, flush: bool)

  predicate Shape(r: Regs) {
    && |r.q| == DEPTH && r.head < DEPTH && r.tail < DEPTH && r.cnt <= DEPTH
    && r.tail == Wrap(r.head + r.cnt)
  }

  /** An index less than two laps on, brought back into the ring. */
  function Wrap(n: nat): (i: nat)
    ensures n < 2 * DEPTH ==> i < DEPTH
  {
    if n >= DEPTH then n - DEPTH else n
  }

  /** Byte `i` ahead of the head, valid or not. */
  function Peek(r: Regs, i: nat): Byte
    requires Shape(r) && i < DEPTH
  {
    r.q[Wrap(r.head + i)]
  }

  /** The queued bytes, oldest first. */
  function Contents(r: Regs): (c: seq<Byte>)
    requires Shape(r)
    ensures |c| == r.cnt
  {
    seq(r.cnt, i requires 0 <= i < r.cnt => Peek(r, i))
  }

  function Pushed(i: In): seq<Byte> {
    if !i.writeEn then [] else if i.word then [i.data.lo, i.data.hi] else [i.data.lo]
  }

  /** No more is consumed than is there. */
  function Popped(r: Regs, i: In): nat { if i.pop > r.cnt then r.cnt else i.pop }

  predicate Fits(r: Regs, i: In) { r.cnt + |Pushed(i)| - Popped(r, i) <= DEPTH }

  function Step(r: Regs, i: In): Regs
    requires Shape(r)
  {
    var n := |Pushed(i)|;
    var one := if n > 0 then r.q[r.tail := i.data.lo] else r.q;
    var two := if n == 2 then one[(if r.tail == DEPTH - 1 then 0 else r.tail + 1) := i.data.hi] else one;
    if i.flush then Regs(r.q, 0, 0, 0)
    else Regs(two, Wrap(r.head + Popped(r, i)), Wrap(r.tail + n), r.cnt + n - Popped(r, i))
  }

  /** A FIFO, whenever the words that arrive fit: consumed from the front, filled
      at the back, both in one clock if asked, and emptied by a flush. */
  lemma StepIsFifo(r: Regs, i: In)
    requires Shape(r) && (i.flush || Fits(r, i))
    ensures Shape(Step(r, i))
    ensures Contents(Step(r, i))
      == if i.flush then [] else Contents(r)[Popped(r, i)..] + Pushed(i)
  {
    var n := Step(r, i);
    if !i.flush {
      forall k | 0 <= k < n.cnt
        ensures Peek(n, k) == (Contents(r)[Popped(r, i)..] + Pushed(i))[k]
      {
        PeekAfter(r, i, k);
      }
    }
  }

  /** Slots are positions modulo the depth. */
  lemma SlotAfter(r: Regs, i: In, k: nat)
    requires Shape(r) && !i.flush && Fits(r, i) && k < Step(r, i).cnt
    ensures Wrap(Step(r, i).head + k) == (r.head + Popped(r, i) + k) % DEPTH
    ensures Shape(Step(r, i))
  {
  }

  lemma SlotOf(head: nat, cnt: nat, tail: nat, pos: nat)
    requires head < DEPTH && cnt <= DEPTH && tail == Wrap(head + cnt)
    ensures pos < cnt ==> Wrap(head + pos) == (head + pos) % DEPTH
    ensures pos == cnt ==> (head + pos) % DEPTH == tail
    ensures pos == cnt + 1 ==> (head + pos) % DEPTH == if tail == DEPTH - 1 then 0 else tail + 1
    ensures pos < cnt < DEPTH ==> (head + pos) % DEPTH != tail
    ensures 0 < pos < cnt ==> (head + pos) % DEPTH != head
    ensures pos < cnt < DEPTH - 1 ==> (head + pos) % DEPTH != if tail == DEPTH - 1 then 0 else tail + 1
    ensures cnt == DEPTH ==> tail == head
    ensures cnt == DEPTH - 1 ==> head == if tail == DEPTH - 1 then 0 else tail + 1
    ensures cnt == DEPTH && 1 < pos < cnt ==> (head + pos) % DEPTH != if tail == DEPTH - 1 then 0 else tail + 1
  {
  }

  lemma PeekAfter(r: Regs, i: In, k: nat)
    requires Shape(r) && !i.flush && Fits(r, i) && k < Step(r, i).cnt
    ensures Shape(Step(r, i))
    ensures Peek(Step(r, i), k)
      == if Popped(r, i) + k < r.cnt then Peek(r, Popped(r, i) + k) else Pushed(i)[Popped(r, i) + k - r.cnt]
  {
    hide Wrap;
    SlotAfter(r, i, k);
    SlotOf(r.head, r.cnt, r.tail, Popped(r, i) + k);
  }

  class Queue {
    const q: array<Byte>
    var head: nat
    var tail: nat
    var cnt: nat

    ghost function View(): Regs
      reads this, q
    {
      Regs(q[..], head, tail, cnt)
    }

    ghost predicate Valid()
      reads this, q
    {
      Shape(View())
    }

    constructor ()
      ensures Valid() && Contents(View()) == [] && fresh(q)
    {
      q := new Byte[DEPTH](_ => 0);
      head, tail, cnt := 0, 0, 0;
    }

    /** space_available: a whole word fits with nothing popped. */
    predicate SpaceAvailable()
      reads this
    {
      cnt <= 4
    }

    method Tick(i: In)
      requires Valid() && (i.flush || Fits(View(), i))
      modifies this, q
      ensures Valid() && View() == Step(old(View()), i)
      ensures Contents(View())
        == if i.flush then [] else old(Contents(View()))[Popped(old(View()), i)..] + Pushed(i)
    {
      StepIsFifo(View(), i);
      Clock(i);
    }

    method Clock(i: In)
      requires Valid()
      modifies this, q
      ensures View() == Step(old(View()), i)
    {
      var take := if i.pop > cnt then cnt else i.pop;
      var n := if !i.writeEn then 0 else if i.word then 2 else 1;
      if i.flush {
        head, tail, cnt := 0, 0, 0;
      } else {
        if n != 0 {
          q[tail] := i.data.lo;
          if n == 2 { q[if tail == DEPTH - 1 then 0 else tail + 1] := i.data.hi; }
        }
        tail := if tail + n >= DEPTH then tail + n - DEPTH else tail + n;
        head := if head + take >= DEPTH then head + take - DEPTH else head + take;
        cnt := cnt + n - take;
      }
    }
  }
}
