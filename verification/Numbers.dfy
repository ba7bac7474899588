/** Arithmetic as JavaScript does it. */
module Numbers {
  /** The remainder of `%`, whose sign is that of the dividend. */
  function Remainder(a: int, b: int): int
    requires b != 0
  {
    var m := if b < 0 then -b else b;
    if a >= 0 then a % m else -((-a) % m)
  }
}
