/** Exact stand-ins for the float helpers the telemetry code calls. */
module Numbers {

  datatype Option<+T> = None | Some(value: T)

  function Max(a: real, b: real): real { if a < b then b else a }

  function Min(a: real, b: real): real { if b < a then b else a }

  /** `round(x, 4)`: the nearest multiple of 1/10000, ties to the even multiple. */
  function Round4(x: real): (r: real)
    ensures -0.00005 <= r - x <= 0.00005
    ensures 0.0 <= x ==> 0.0 <= r
    ensures x <= 0.0 ==> r <= 0.0
    ensures (r * 10000.0).Floor as real == r * 10000.0
  {
    var scaled := x * 10000.0;
    var below := scaled.Floor;
    var part := scaled - below as real;
    var nearest :=
      if part < 0.5 then below
      else if part > 0.5 then below + 1
      else if below % 2 == 0 then below
      else below + 1;
    nearest as real / 10000.0
  }

  /** A value on the grid of four digits stays, and halfway between two goes to the even one. */
  lemma RoundingIsToNearestEven(n: int)
    ensures Round4(n as real / 10000.0) == n as real / 10000.0
    ensures Round4((n as real + 0.5) / 10000.0) == (if n % 2 == 0 then n else n + 1) as real / 10000.0
  {
    assert (n as real).Floor == n && (n as real + 0.5).Floor == n;
  }

  function Least(a: int, b: int): int { if a <= b then a else b }
}
