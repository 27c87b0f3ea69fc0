/** The program's 32-bit integers. */
module Words {
  const TWO_TO_THE_31 := 0x8000_0000
  const TWO_TO_THE_32 := 0x1_0000_0000

  type int32 = x: int | -TWO_TO_THE_31 <= x < TWO_TO_THE_31
  type uint32 = x: int | 0 <= x < TWO_TO_THE_32

  predicate Fits(x: int) {
    -TWO_TO_THE_31 <= x < TWO_TO_THE_31
  }

  /** A signed result kept to 32 bits; exact whenever it fits. */
  function Wrap(x: int): (r: int32)
    ensures r == x <==> Fits(x)
  {
    if Fits(x) then x else (x + TWO_TO_THE_31) % TWO_TO_THE_32 - TWO_TO_THE_31
  }

  /** Otherwise it differs from the exact one by a multiple of 2 to the 32. */
  lemma WrapCongruent(x: int)
    ensures (Wrap(x) - x) % TWO_TO_THE_32 == 0
  {
    var y := x + TWO_TO_THE_31;
    assert y % TWO_TO_THE_32 - y == -TWO_TO_THE_32 * (y / TWO_TO_THE_32);
    if !Fits(x) {
      assert Wrap(x) - x == (-(y / TWO_TO_THE_32)) * TWO_TO_THE_32;
    }
  }

  /** An unsigned counter after one more increment. */
  function Increment(x: uint32): (r: uint32)
    ensures r == 0 <==> x == TWO_TO_THE_32 - 1
    ensures r != 0 ==> r == x + 1
  {
    (x + 1) % TWO_TO_THE_32
  }
}
