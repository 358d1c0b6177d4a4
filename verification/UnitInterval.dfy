/** Clamping to the unit interval. */
module UnitInterval {

  function Clamp01(x: real): (y: real)
    ensures 0.0 <= y <= 1.0 && (0.0 <= x <= 1.0 ==> y == x)
    ensures (x < 0.0 ==> y == 0.0) && (x > 1.0 ==> y == 1.0)
  {
    if x < 0.0 then 0.0 else if x > 1.0 then 1.0 else x
  }
}
