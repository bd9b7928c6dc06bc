/** Values every part of the machine shares: bytes, 16-bit words as two byte
    lanes, and the byte enables that go with a write. */
module Machine {

  type Byte = bv8

  /** A 16-bit bus word: D7-D0 and D15-D8. */
  datatype Word = Word(lo: Byte, hi: Byte)

  /** Byte enables; `lo` is lane 0. */
  datatype Lanes = Lanes(lo: bool, hi: bool)

  datatype Option<+T> = None | Some(value: T)

  const ZERO := Word(0, 0)
  const BOTH := Lanes(true, true)

  /** What a word holds after `data` is written to it through `be`. */
  function Merge(was: Word, data: Word, be: Lanes): Word {
    Word(if be.lo then data.lo else was.lo, if be.hi then data.hi else was.hi)
  }
}
