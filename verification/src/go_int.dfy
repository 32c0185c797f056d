/** Go's fixed-width integer conversions, written out over Dafny's unbounded `int`. */
module GoInt {

  const MinInt32: int := -0x8000_0000
  const MaxInt32: int := 0x7fff_ffff
  const TwoTo32: int := 0x1_0000_0000

  predicate InInt32(x: int) {
    MinInt32 <= x <= MaxInt32
  }

  /** The conversion `int32(x)`: keeps the low 32 bits and reads them as a signed value. */
  function ToInt32(x: int): (r: int)
    ensures InInt32(r)
    ensures (r - x) % TwoTo32 == 0
    ensures InInt32(x) ==> r == x
  {
    (x - MinInt32) % TwoTo32 + MinInt32
  }

  /** A count one past the int32 range wraps to the most negative int32. */
  lemma ToInt32Wraps()
    ensures ToInt32(MaxInt32 + 1) == MinInt32
  {
  }
}
