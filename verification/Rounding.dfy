/** Rounding to the nearest multiple, ties to even. */
module Rounding {

  function RoundInt(x: real): (n: int)
    ensures -0.5 <= n as real - x <= 0.5
  {
    var f := x.Floor;
    var part := x - f as real;
    if part < 0.5 || (part == 0.5 && f % 2 == 0) then f else f + 1
  }

  /** A tie goes to the even neighbour. */
  lemma TiesToEven(x: real)
    ensures RoundInt(x) as real - x == 0.5 || x - RoundInt(x) as real == 0.5 ==> RoundInt(x) % 2 == 0
  {
  }

  function Round1(x: real): (r: real)
    ensures -0.05 <= r - x <= 0.05
  {
    RoundInt(x * 10.0) as real / 10.0
  }

  function Round2(x: real): (r: real)
    ensures -0.005 <= r - x <= 0.005
  {
    RoundInt(x * 100.0) as real / 100.0
  }

  function Round3(x: real): (r: real)
    ensures -0.0005 <= r - x <= 0.0005
  {
    RoundInt(x * 1000.0) as real / 1000.0
  }

  lemma WholeStays(n: int)
    ensures RoundInt(n as real) == n
  {
  }

  /** Rounding a rounded figure changes nothing. */
  lemma RoundedStays(x: real)
    ensures Round1(Round1(x)) == Round1(x) && Round2(Round2(x)) == Round2(x) && Round3(Round3(x)) == Round3(x)
  {
    var tenths, hundredths, thousandths := RoundInt(x * 10.0), RoundInt(x * 100.0), RoundInt(x * 1000.0);
    WholeStays(tenths);
    WholeStays(hundredths);
    WholeStays(thousandths);
    assert Round1(x) * 10.0 == tenths as real;
    assert Round2(x) * 100.0 == hundredths as real;
    assert Round3(x) * 1000.0 == thousandths as real;
  }
}
