/** What the string instructions of modules/execUnit.sv come to, told in addresses,
    bytes and counts: the definition by elements, summed up. */
module StringMeaning {
  import opened Machine
  import opened BiuRuns
  import opened StringEngine
  import B = Biu

  // ---- comparisons ---------------------------------------------------------------------

  function Modulus(word: bool): nat { if word then 0x1_0000 else 0x100 }

  /** Little-endian, or the low byte alone. */
  function Unsigned(w: Word, word: bool): nat {
    if word then w.lo as nat + 0x100 * (w.hi as nat) else w.lo as nat
  }

  /** Two's complement. */
  function Signed(x: nat, word: bool): int { if x >= Modulus(word) / 2 then x - Modulus(word) else x }

  function Ones(b: Byte): nat {
    (if b & 1 != 0 then 1 else 0) + (if b & 2 != 0 then 1 else 0) + (if b & 4 != 0 then 1 else 0)
    + (if b & 8 != 0 then 1 else 0) + (if b & 16 != 0 then 1 else 0) + (if b & 32 != 0 then 1 else 0)
    + (if b & 64 != 0 then 1 else 0) + (if b & 128 != 0 then 1 else 0)
  }

  lemma ParityCountsOnes(b: Byte)
    ensures EvenParity(b) <==> Ones(b) % 2 == 0
  {
  }

  lemma ValueFits(w: Word, word: bool)
    ensures Value(w, word) == Unsigned(w, word) < Modulus(word)
  {
  }

  /** Sign and overflow of a difference tell the signed order. */
  lemma SignedOrder(x: nat, y: nat, word: bool)
    requires x < Modulus(word) && y < Modulus(word)
    ensures var m := Modulus(word); var s, t := Signed(x, word), Signed(y, word);
      var neg, big := Signed((x - y) % m, word) < 0, s - t < -(m / 2) || s - t >= m / 2;
      && (neg <==> (x - y) % m >= m / 2) && (neg != big <==> s < t)
      && (big <==> (x >= m / 2) != (y >= m / 2) && neg != (x >= m / 2))
  {
  }

  /** THE FLAGS OF A COMPARISON. Carry is unsigned below, overflow a signed difference
      that does not fit, zero and sign those of the difference, parity an even count of
      ones in its low byte, adjust a borrow from the low four bits; and so, after it, the
      conditions mean the orders they are named for. */
  lemma ComparisonFlags(a: Word, b: Word, word: bool)
    ensures var f, m := CmpFlags(a, b, word), Modulus(word);
      var x, y := Unsigned(a, word), Unsigned(b, word);
      var s, t := Signed(x, word), Signed(y, word);
      && (f.cf <==> x < y) && (f.zf <==> x == y)
      && (f.sf <==> Signed((x - y) % m, word) < 0)
      && (f.of <==> s - t < -(m / 2) || s - t >= m / 2)
      && (f.pf <==> Ones(a.lo - b.lo) % 2 == 0)
      && (f.af <==> x % 16 - y % 16 < 0)
      && (f.sf != f.of <==> s < t) && (f.zf || f.sf != f.of <==> s <= t)
      && (f.cf || f.zf <==> x <= y)
  {
    hide EvenParity, Value, Unsigned, Ones;
    ValueFits(a, word);
    ValueFits(b, word);
    ParityCountsOnes(a.lo - b.lo);
    SignedOrder(Value(a, word), Value(b, word), word);
  }

  // ---- one element ------------------------------------------------------------------------

  predicate UsesSi(op: Op) { op.kind in {Movs, Cmps, Lods, Outs} }
  predicate UsesDi(op: Op) { op.kind in {Movs, Cmps, Stos, Scas, Ins} }

  /** One width up with DF clear, one width down with DF set, mod 64K. */
  function OneStep(x: nat, op: Op): int {
    match (op.down, op.word)
    case (false, false) => (x + 1) % 0x1_0000
    case (false, true) => (x + 2) % 0x1_0000
    case (true, false) => (x - 1) % 0x1_0000
    case (true, true) => (x - 2) % 0x1_0000
  }

  /** ONE STEP: the pointers an instruction uses move by its width the way DF says, REP
      counts CX down, and what is not moved stays. */
  lemma ElementSteps(a: Arch, op: Op)
    ensures var n := Element(a, op);
      && n.si == (if UsesSi(op) then OneStep(a.si, op) else a.si)
      && n.di == (if UsesDi(op) then OneStep(a.di, op) else a.di)
      && (op.rep && a.cx > 0 ==> n.cx == (a.cx - 1) % 0x1_0000) && (!op.rep ==> n.cx == a.cx)
  {
    hide Load, Store, CmpFlags;
  }

  /** Byte or word at `p`, little-endian. */
  function Fetched(mem: Bytes, p: nat, op: Op): Word
    requires p < B.SPACE
  {
    Word(mem[p], if op.word then mem[Ahead(p, 1)] else 0)
  }

  predicate HoldsAt(mem: Bytes, p: nat, data: Word, op: Op)
    requires p < B.SPACE
  {
    mem[p] == data.lo && (op.word ==> mem[Ahead(p, 1)] == data.hi)
  }

  predicate IsByteOf(p: nat, q: nat, op: Op) { q == p || (op.word && q == Ahead(p, 1)) }

  /** Memory with one element stored at `p`, if there is one. */
  ghost predicate Stores(was: Bytes, mem: Bytes, p: nat, data: Option<Word>, op: Op)
    requires p < B.SPACE
  {
    && (data.Some? ==> HoldsAt(mem, p, data.value, op))
    && forall q :: 0 <= q < B.SPACE && (data.None? || !IsByteOf(p, q, op)) ==> mem[q] == was[q]
  }

  /** ONE ELEMENT, by what is at DS:SI (or an override) and ES:DI: MOVS and STOS and INS
      store, LODS loads, CMPS and SCAS compare, OUTS puts out; and no more than that. */
  lemma ElementDoes(a: Arch, op: Op)
    ensures var n := Element(a, op);
      var src, dst := (op.srcBase + a.si) % B.SPACE, (op.esBase + a.di) % B.SPACE;
      var at_, to_ := Fetched(a.mem, src, op), Fetched(a.mem, dst, op);
      && Stores(a.mem, n.mem, dst, match op.kind case Movs => Some(at_) case Stos => Some(a.ax)
                                     case Ins => Some(op.input(op.port % B.SPACE, a.inputs)) case _ => None, op)
      && n.ax == (if op.kind == Lods then Word(at_.lo, if op.word then at_.hi else a.ax.hi) else a.ax)
      && n.flags == (if op.kind == Cmps then CmpFlags(at_, to_, op.word)
                     else if op.kind == Scas then CmpFlags(a.ax, to_, op.word) else a.flags)
      && n.inputs == a.inputs + (if op.kind == Ins then 1 else 0)
      && n.outputs == a.outputs + if op.kind == Outs then [(op.port % B.SPACE, at_)] else []
  {
    hide CmpFlags;
    assert a.outputs + [] == a.outputs;
  }

  // ---- many elements -------------------------------------------------------------------------

  function Span(op: Op, n: nat): nat { if op.word then 2 * n else n }

  /** A pointer `n` elements on, in the direction DF gives. */
  function Stepped(x: nat, n: nat, op: Op): (y: nat)
    ensures y < W16
  {
    if op.down then (x - Span(op, n)) % W16 else (x + Span(op, n)) % W16
  }

  lemma OneMoreStep(x: nat, n: nat, op: Op)
    ensures Move(Stepped(x, n, op), op) == Stepped(x, n + 1, op)
  {
    var d := Span(op, 1);
    assert Span(op, n + 1) == Span(op, n) + d;
    if op.down {
      Wraps(x - Span(op, n), W16 - d);
      Again16(x - Span(op, n) - d);
    } else {
      Wraps(x + Span(op, n), d);
    }
  }

  lemma Wraps(a: int, b: int)
    ensures (a % W16 + b) % W16 == (a + b) % W16
  {
  }

  lemma Again16(a: int)
    ensures (a + W16) % W16 == a % W16
  {
  }

  lemma {:induction false} Pointers(a: Arch, n: nat, op: Op)
    requires a.si < W16 && a.di < W16 && a.cx < W16 && (op.rep ==> n <= a.cx)
    ensures var r := After(a, n, op);
      && r.si == (if UsesSi(op) then Stepped(a.si, n, op) else a.si)
      && r.di == (if UsesDi(op) then Stepped(a.di, n, op) else a.di)
      && r.cx == (if op.rep then a.cx - n else a.cx)
      && (op.kind != Lods ==> r.ax == a.ax) && (op.kind !in {Cmps, Scas} ==> r.flags == a.flags)
  {
    hide Source, Target, Store, CmpFlags, Stepped, Move;
    if n > 0 {
      Pointers(a, n - 1, op);
      OneMoreStep(a.si, n - 1, op);
      OneMoreStep(a.di, n - 1, op);
    } else {
      NoSteps(a.si, op);
      NoSteps(a.di, op);
    }
  }

  lemma NoSteps(x: nat, op: Op)
    requires x < W16
    ensures Stepped(x, 0, op) == x
  {
  }

  lemma {:induction false} AfterFront(a: Arch, n: nat, op: Op)
    ensures After(Element(a, op), n, op) == After(a, n + 1, op)
  {
    hide Element;
    if n > 0 { AfterFront(a, n - 1, op); }
  }

  /** REP RUNS TO THE FIRST STOP: `n` elements, where the comparison said to go on
      after each but the last, and after the last CX is used up or it said to stop. */
  ghost predicate StopsAt(a: Arch, op: Op, n: nat) {
    && 1 <= n <= a.cx
    && (forall m :: 1 <= m < n && op.kind in {Cmps, Scas} ==> After(a, m, op).flags.zf == op.repZ)
    && (n < a.cx ==> op.kind in {Cmps, Scas} && After(a, n, op).flags.zf != op.repZ)
  }

  lemma {:induction false} RepeatStops(a: Arch, op: Op) returns (n: nat)
    requires op.rep && 0 < a.cx < W16
    ensures StopsAt(a, op, n) && Repeat(a, op) == After(a, n, op)
    decreases a.cx
  {
    hide Element, After, Repeat;
    RepeatUnfolds(a, op);
    CountsDown(a, op);
    FirstElement(a, op);
    if Again(Element(a, op), op) {
      var rest := RepeatStops(Element(a, op), op);
      n := rest + 1;
      forall m | 1 <= m < n && op.kind in {Cmps, Scas}
        ensures After(a, m, op).flags.zf == op.repZ
      {
        AfterFront(a, m - 1, op);
      }
      AfterFront(a, rest, op);
    } else {
      n := 1;
    }
  }

  lemma CountsDown(a: Arch, op: Op)
    requires op.rep && 0 < a.cx < W16
    ensures Element(a, op).cx == a.cx - 1
  {
    hide Source, Target, Store, CmpFlags, Move;
  }

  lemma FirstElement(a: Arch, op: Op)
    ensures After(a, 1, op) == Element(a, op) && After(a, 0, op) == a
  {
    hide Element;
  }

  /** Without a comparison all CX elements are done. */
  lemma RepeatIsAfter(a: Arch, op: Op)
    requires op.rep && a.cx < W16 && op.kind !in {Cmps, Scas}
    ensures Repeat(a, op) == After(a, a.cx, op)
  {
    hide Element;
    if a.cx > 0 { var n := RepeatStops(a, op); }
  }

  // ---- where the bytes go ------------------------------------------------------------------------

  /** The linear address of element `j` of the stretch that starts at `base:x`. */
  function ElementAt(base: nat, x: nat, j: nat, op: Op): (p: nat)
    ensures p < B.SPACE
  {
    (base + Stepped(x, j, op)) % B.SPACE
  }

  /** Address `q` belongs to one of the first `n` elements. */
  ghost predicate Touched(q: nat, base: nat, x: nat, n: nat, op: Op) {
    exists j :: 0 <= j < n && IsByteOf(ElementAt(base, x, j, op), q, op)
  }

  /** What element `j` stores, from memory as the instruction found it. */
  function Datum(a: Arch, op: Op, j: nat): Word {
    if op.kind == Stos then a.ax
    else Fetched(a.mem, ElementAt(op.srcBase, a.si, j, op), op)
  }

  /** No element of a move is read after its bytes have been written. */
  ghost predicate SourceApart(a: Arch, op: Op, n: nat) {
    op.kind == Movs ==>
      forall j, q :: 0 <= j < n && IsByteOf(ElementAt(op.srcBase, a.si, j, op), q, op) ==>
        !Touched(q, op.esBase, a.di, n, op)
  }

  lemma WordSteps(x: nat, j: nat, op: Op)
    requires op.word
    ensures Stepped(x, j, op) % 2 == x % 2
  {
    if op.down { Parity(x - 2 * j); } else { Parity(x + 2 * j); }
  }

  lemma SteppedApart(x: nat, j: nat, k: nat, op: Op)
    requires j < k && Span(op, k - j) < W16
    ensures Stepped(x, j, op) != Stepped(x, k, op)
  {
    var u, v := Span(op, j), Span(op, k);
    assert 0 < v - u < W16;
    if op.down { Residues(x - u, x - v); } else { Residues(x + v, x + u); }
  }

  lemma Residues(a: int, b: int)
    requires 0 < a - b < W16
    ensures a % W16 != b % W16
  {
    var p, q := a / W16, b / W16;
    assert a == W16 * p + a % W16 && b == W16 * q + b % W16;
  }

  lemma Parity(a: int)
    ensures a % W16 % 2 == a % 2
  {
    var p := a / W16;
    assert a == W16 * p + a % W16;
  }

  /** Elements that do not come round again share no byte. */
  lemma ElementsApart(base: nat, x: nat, j: nat, k: nat, op: Op, q: nat)
    requires j < k && Span(op, k - j) < W16 && IsByteOf(ElementAt(base, x, j, op), q, op)
    ensures !IsByteOf(ElementAt(base, x, k, op), q, op)
  {
    hide Stepped;
    SteppedApart(x, j, k, op);
    var s, t := Stepped(x, j, op), Stepped(x, k, op);
    LinearApart(base, s, t);
    if op.word {
      WordSteps(x, j, op);
      WordSteps(x, k, op);
      NextLinear(base, s);
      NextLinear(base, t);
      LinearApart(base, s + 1, t);
      LinearApart(base, s, t + 1);
      LinearApart(base, s + 1, t + 1);
    }
  }

  lemma NextLinear(base: nat, s: nat)
    ensures Ahead((base + s) % B.SPACE, 1) == (base + (s + 1)) % B.SPACE
  {
  }

  lemma LinearApart(base: nat, s: nat, t: nat)
    requires s != t && s <= W16 && t <= W16
    ensures (base + s) % B.SPACE != (base + t) % B.SPACE
  {
  }

  lemma StoreAt(mem: Bytes, p: nat, data: Word, op: Op)
    requires p < B.SPACE
    ensures var m := Store(mem, B.Request(true, false, op.word, p, data));
      && HoldsAt(m, p, data, op)
      && forall q :: 0 <= q < B.SPACE && !IsByteOf(p, q, op) ==> m[q] == mem[q]
  {
  }

  /** The next element's store. */
  lemma NextStore(a: Arch, n: nat, op: Op)
    requires op.kind in {Stos, Movs} && a.si < W16 && a.di < W16 && a.cx < W16 && (op.rep ==> n < a.cx)
    requires SourceApart(a, op, n + 1)
    requires forall q :: 0 <= q < B.SPACE && !Touched(q, op.esBase, a.di, n, op) ==> After(a, n, op).mem[q] == a.mem[q]
    ensures var m, p := After(a, n + 1, op).mem, ElementAt(op.esBase, a.di, n, op);
      && HoldsAt(m, p, Datum(a, op, n), op)
      && forall q :: 0 <= q < B.SPACE && !IsByteOf(p, q, op) ==> m[q] == After(a, n, op).mem[q]
  {
    hide Stepped, Store, Touched, HoldsAt;
    Pointers(a, n, op);
    var r := After(a, n, op);
    var p := ElementAt(op.esBase, a.di, n, op);
    if op.kind == Movs { SourceIsDatum(a, n, op); }
    StoreAt(r.mem, p, if op.kind == Stos then r.ax else Source(r, op), op);
    SameData(r.mem, p, if op.kind == Stos then r.ax else Source(r, op), Datum(a, op, n), op);
  }

  lemma SameData(mem: Bytes, p: nat, d: Word, e: Word, op: Op)
    requires p < B.SPACE && d.lo == e.lo && (op.word ==> d.hi == e.hi)
    ensures forall m: Bytes :: HoldsAt(m, p, d, op) == HoldsAt(m, p, e, op)
  {
  }

  lemma SourceIsDatum(a: Arch, n: nat, op: Op)
    requires op.kind == Movs && a.si < W16 && a.di < W16 && a.cx < W16 && (op.rep ==> n < a.cx)
    requires SourceApart(a, op, n + 1)
    requires forall q :: 0 <= q < B.SPACE && !Touched(q, op.esBase, a.di, n, op) ==> After(a, n, op).mem[q] == a.mem[q]
    ensures Source(After(a, n, op), op) == Datum(a, op, n)
  {
    hide Stepped, After;
    Pointers(a, n, op);
    var p := ElementAt(op.srcBase, a.si, n, op);
    TouchedGrows(p, a, n, op);
    TouchedGrows(Ahead(p, 1), a, n, op);
    assert IsByteOf(p, p, op);
    assert op.word ==> IsByteOf(p, Ahead(p, 1), op);
  }

  lemma TouchedGrows(q: nat, a: Arch, n: nat, op: Op)
    ensures Touched(q, op.esBase, a.di, n, op) ==> Touched(q, op.esBase, a.di, n + 1, op)
  {
    hide ElementAt, IsByteOf;
  }

  lemma {:induction false} StoresSoFar(a: Arch, n: nat, op: Op)
    requires op.kind in {Stos, Movs} && a.si < W16 && a.di < W16 && a.cx < W16 && (op.rep ==> n <= a.cx)
    requires Span(op, n) <= W16 && SourceApart(a, op, n)
    ensures var m := After(a, n, op).mem;
      && (forall j :: 0 <= j < n ==> HoldsAt(m, ElementAt(op.esBase, a.di, j, op), Datum(a, op, j), op))
      && forall q :: 0 <= q < B.SPACE && !Touched(q, op.esBase, a.di, n, op) ==> m[q] == a.mem[q]
  {
    hide Stepped, After, Touched, HoldsAt, Datum, SourceApart, ElementAt, IsByteOf;
    if n == 0 {
      FirstElement(a, op);
    } else {
      SourceApartBefore(a, op, n);
      StoresSoFar(a, n - 1, op);
      NextStore(a, n - 1, op);
      var was, m := After(a, n - 1, op).mem, After(a, n, op).mem;
      forall j | 0 <= j < n
        ensures HoldsAt(m, ElementAt(op.esBase, a.di, j, op), Datum(a, op, j), op)
      {
        if j < n - 1 { StillHolds(m, was, a, op, j, n - 1); }
      }
      forall q | 0 <= q < B.SPACE && !Touched(q, op.esBase, a.di, n, op)
        ensures m[q] == a.mem[q]
      {
        TouchedGrows(q, a, n - 1, op);
        TouchedLast(q, a, n, op);
      }
    }
  }

  lemma TouchedLast(q: nat, a: Arch, n: nat, op: Op)
    requires n > 0
    ensures IsByteOf(ElementAt(op.esBase, a.di, n - 1, op), q, op) ==> Touched(q, op.esBase, a.di, n, op)
  {
    hide ElementAt, IsByteOf;
  }

  lemma SourceApartBefore(a: Arch, op: Op, n: nat)
    requires n > 0 && SourceApart(a, op, n)
    ensures SourceApart(a, op, n - 1)
  {
    hide ElementAt, IsByteOf, Touched;
    forall q {:trigger Touched(q, op.esBase, a.di, n - 1, op)}
      ensures Touched(q, op.esBase, a.di, n - 1, op) ==> Touched(q, op.esBase, a.di, n, op)
    {
      TouchedGrows(q, a, n - 1, op);
    }
  }

  /** A later element's store leaves an earlier one's bytes. */
  lemma StillHolds(m: Bytes, was: Bytes, a: Arch, op: Op, j: nat, k: nat)
    requires j < k && Span(op, k - j) < W16
    requires HoldsAt(was, ElementAt(op.esBase, a.di, j, op), Datum(a, op, j), op)
    requires forall q :: 0 <= q < B.SPACE && !IsByteOf(ElementAt(op.esBase, a.di, k, op), q, op) ==> m[q] == was[q]
    ensures HoldsAt(m, ElementAt(op.esBase, a.di, j, op), Datum(a, op, j), op)
  {
    hide ElementAt, Datum;
    var p := ElementAt(op.esBase, a.di, j, op);
    ElementsApart(op.esBase, a.di, j, k, op, p);
    if op.word { ElementsApart(op.esBase, a.di, j, k, op, Ahead(p, 1)); }
  }

  /** REP STOS AND REP MOVS, WHOLE. With CX elements, no more than fill a segment, and a
      source that is not overwritten first: element j of the destination, counted up or
      down from ES:DI, holds AX, or what element j of the source held; every other byte
      is as it was; and the pointers have moved by CX elements. */
  lemma RepeatStores(a: Arch, op: Op)
    requires op.rep && op.kind in {Stos, Movs} && a.si < W16 && a.di < W16 && a.cx < W16
    requires Span(op, a.cx) <= W16 && SourceApart(a, op, a.cx)
    ensures var r := Complete(a, op);
      && (forall j :: 0 <= j < a.cx ==> HoldsAt(r.mem, ElementAt(op.esBase, a.di, j, op), Datum(a, op, j), op))
      && (forall q :: 0 <= q < B.SPACE && !Touched(q, op.esBase, a.di, a.cx, op) ==> r.mem[q] == a.mem[q])
      && r.cx == 0 && r.di == Stepped(a.di, a.cx, op)
      && r.si == (if op.kind == Movs then Stepped(a.si, a.cx, op) else a.si)
  {
    hide Stepped, After, Touched, HoldsAt, Datum, SourceApart, ElementAt, Repeat;
    RepeatIsAfter(a, op);
    Pointers(a, a.cx, op);
    StoresSoFar(a, a.cx, op);
  }
}
